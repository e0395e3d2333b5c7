/**
 char_separator over a whole input. Keeping empty tokens yields one field per gap
 between delimiters; dropping them yields the kept delimiters and the maximal runs of
 other characters.
 */
module CharTokens {
  import opened TokenSpec

  // ---------------------------------------------------------------------------
  // keep_empty_tokens

  /** The fields of `s` from `i` on: the possibly empty gaps between its delimiters. */
  function Fields(c: CharSplit, s: string, i: nat): (fields: seq<string>)
    requires i <= |s|
    ensures |fields| > 0
    decreases |s| - i
  {
    var j := RunEnd(c, s, i);
    if j == |s| then [s[i..]] else [s[i..j]] + Fields(c, s, j + 1)
  }

  /** The delimiters of `s` from `i` on. */
  function Delims(c: CharSplit, s: string, i: nat): string
    requires i <= |s|
    decreases |s| - i
  {
    if i == |s| then ""
    else if c.IsDelim(s[i]) then [s[i]] + Delims(c, s, i + 1)
    else Delims(c, s, i + 1)
  }

  /** Puts delimiters back between fields. */
  function Join(fields: seq<string>, delims: string): string
    requires |fields| == |delims| + 1
  {
    if delims == "" then fields[0] else fields[0] + [delims[0]] + Join(fields[1..], delims[1..])
  }

  /** The fields with the kept delimiters, each a token of its own, in between. */
  function Interleave(c: CharSplit, fields: seq<string>, delims: string): seq<string>
    requires |fields| == |delims| + 1
  {
    if delims == "" then fields
    else [fields[0]] + (if c.IsKept(delims[0]) then [[delims[0]]] else []) + Interleave(c, fields[1..], delims[1..])
  }

  lemma {:induction false} DelimsAfterRun(c: CharSplit, s: string, i: nat)
    requires i <= |s|
    ensures Delims(c, s, i) == Delims(c, s, RunEnd(c, s, i))
    decreases |s| - i
  {
    if i < |s| && !c.IsDelim(s[i]) {
      DelimsAfterRun(c, s, i + 1);
    }
  }

  lemma Unfold(c: CharSplit, s: string, i: nat)
    requires i <= |s|
    ensures
      var j := RunEnd(c, s, i);
      if j == |s| then Fields(c, s, i) == [s[i..]] && Delims(c, s, i) == ""
      else Fields(c, s, i) == [s[i..j]] + Fields(c, s, j + 1) && Delims(c, s, i) == [s[j]] + Delims(c, s, j + 1)
  {
    DelimsAfterRun(c, s, i);
  }

  lemma JoinCons(f: string, fields: seq<string>, d: char, delims: string)
    requires |fields| == |delims| + 1
    ensures Join([f] + fields, [d] + delims) == f + [d] + Join(fields, delims)
  {
    assert ([f] + fields)[1..] == fields && ([d] + delims)[1..] == delims;
  }

  lemma InterleaveCons(c: CharSplit, f: string, fields: seq<string>, d: char, delims: string)
    requires |fields| == |delims| + 1
    ensures Interleave(c, [f] + fields, [d] + delims)
         == [f] + ((if c.IsKept(d) then [[d]] else []) + Interleave(c, fields, delims))
  {
    assert ([f] + fields)[1..] == fields && ([d] + delims)[1..] == delims;
  }

  lemma {:induction false} OneFieldPerGap(c: CharSplit, s: string, i: nat)
    requires i <= |s|
    ensures |Fields(c, s, i)| == |Delims(c, s, i)| + 1
    decreases |s| - i
  {
    hide Fields, Delims;
    Unfold(c, s, i);
    if RunEnd(c, s, i) < |s| {
      OneFieldPerGap(c, s, RunEnd(c, s, i) + 1);
    }
  }

  /** Fields are one more than delimiters, and the two rebuild the input. */
  lemma {:induction false} FieldsRebuildInput(c: CharSplit, s: string, i: nat)
    requires i <= |s|
    ensures |Fields(c, s, i)| == |Delims(c, s, i)| + 1
    ensures Join(Fields(c, s, i), Delims(c, s, i)) == s[i..]
    decreases |s| - i
  {
    hide Fields, Delims;
    Unfold(c, s, i);
    var j := RunEnd(c, s, i);
    if j < |s| {
      FieldsRebuildInput(c, s, j + 1);
      JoinCons(s[i..j], Fields(c, s, j + 1), s[j], Delims(c, s, j + 1));
      assert s[i..] == s[i..j] + [s[j]] + s[j + 1..];
    }
  }

  predicate NoDelims(c: CharSplit, f: string) {
    forall k :: 0 <= k < |f| ==> !c.IsDelim(f[k])
  }

  /** No field holds a delimiter, and nothing else counts as one. */
  lemma {:induction false} FieldsAreGaps(c: CharSplit, s: string, i: nat)
    requires i <= |s|
    ensures forall k :: 0 <= k < |Fields(c, s, i)| ==> NoDelims(c, Fields(c, s, i)[k])
    ensures forall k :: 0 <= k < |Delims(c, s, i)| ==> c.IsDelim(Delims(c, s, i)[k])
    decreases |s| - i
  {
    hide Fields, Delims;
    Unfold(c, s, i);
    var j := RunEnd(c, s, i);
    assert NoDelims(c, s[i..j]);
    if j < |s| {
      FieldsAreGaps(c, s, j + 1);
    } else {
      assert s[i..] == s[i..j];
    }
  }

  /** What remains once a field that ends at `j` has been yielded. */
  function AfterField(c: CharSplit, s: string, j: nat): seq<string>
    requires j <= |s|
  {
    if j == |s| then []
    else
      OneFieldPerGap(c, s, j + 1);
      (if c.IsKept(s[j]) then [[s[j]]] else []) + Interleave(c, Fields(c, s, j + 1), Delims(c, s, j + 1))
  }

  lemma InterleaveStep(c: CharSplit, s: string, i: nat)
    requires i <= |s|
    ensures |Fields(c, s, i)| == |Delims(c, s, i)| + 1
    ensures Interleave(c, Fields(c, s, i), Delims(c, s, i))
         == [s[i..RunEnd(c, s, i)]] + AfterField(c, s, RunEnd(c, s, i))
  {
    hide Fields, Delims;
    OneFieldPerGap(c, s, i);
    Unfold(c, s, i);
    var j := RunEnd(c, s, i);
    if j < |s| {
      OneFieldPerGap(c, s, j + 1);
      InterleaveCons(c, s[i..j], Fields(c, s, j + 1), s[j], Delims(c, s, j + 1));
    } else {
      assert s[i..] == s[i..j];
    }
  }

  lemma TokensOfCall(c: CharSplit, done: bool, s: string, i: nat)
    requires c.keepEmpty && i <= |s|
    ensures
      var (r, done') := CallKeeping(c, done, s, i);
      match r
      case Token(n, tok) =>
        n <= |s| && Tokens(Chars(c, done), s, i)
          == (var rest := Tokens(Chars(c, done'), s, n); Tokenized([tok] + rest.toks, rest.failure))
      case End(_) => Tokens(Chars(c, done), s, i) == Tokenized([], NoFailure)
      case Thrown(_, _, _) => false
  {
  }

  lemma {:induction false} KeepingFromGap(c: CharSplit, s: string, i: nat)
    requires c.keepEmpty && i <= |s|
    ensures Tokens(Chars(c, false), s, i)
         == Tokenized([s[i..RunEnd(c, s, i)]] + AfterField(c, s, RunEnd(c, s, i)), NoFailure)
    decreases |s| - i, 1
  {
    hide Tokens, AfterField;
    TokensOfCall(c, false, s, i);
    var j := RunEnd(c, s, i);
    assert j == i ==> s[i..j] == "";
    KeepingAfterField(c, s, j);
  }

  lemma {:induction false} KeepingAfterField(c: CharSplit, s: string, j: nat)
    requires c.keepEmpty && j <= |s| && (j < |s| ==> c.IsDelim(s[j]))
    ensures Tokens(Chars(c, true), s, j) == Tokenized(AfterField(c, s, j), NoFailure)
    decreases |s| - j, 0
  {
    hide Tokens, Interleave, Fields, Delims;
    TokensOfCall(c, true, s, j);
    if j < |s| {
      InterleaveStep(c, s, j + 1);
      if c.IsKept(s[j]) {
        KeepingFromGap(c, s, j + 1);
      } else {
        KeepingAfterField(c, s, RunEnd(c, s, j + 1));
      }
    }
  }

  /** Every nonempty input yields exactly its fields and kept delimiters, in order. */
  lemma KeepingYieldsFields(c: CharSplit, s: string)
    requires c.keepEmpty && s != ""
    ensures |Fields(c, s, 0)| == |Delims(c, s, 0)| + 1
    ensures Tokenize(Chars(c, false), s) == Tokenized(Interleave(c, Fields(c, s, 0), Delims(c, s, 0)), NoFailure)
  {
    KeepingFromGap(c, s, 0);
    InterleaveStep(c, s, 0);
  }

  /** `reset` keeps the flag: with a function already used, a leading empty field is lost, and only that. */
  lemma StaleFlagLosesLeadingField(c: CharSplit, s: string)
    requires c.keepEmpty && s != ""
    ensures
      var clean, stale := Tokenize(Chars(c, false), s), Tokenize(Chars(c, true), s);
      if c.IsDelim(s[0]) then clean == Tokenized([""] + stale.toks, stale.failure) else stale == clean
  {
    if c.IsDelim(s[0]) {
      KeepingFromGap(c, s, 0);
      KeepingAfterField(c, s, 0);
    } else {
      TokensOfCall(c, false, s, 0);
      TokensOfCall(c, true, s, 0);
    }
  }

  // ---------------------------------------------------------------------------
  // drop_empty_tokens

  /** `s[a..b]` is a kept delimiter, or a run of other characters that cannot be extended. */
  predicate IsToken(c: CharSplit, s: string, a: nat, b: nat) {
    a < b <= |s| && !c.IsDropped(s[a])
    && if c.IsKept(s[a]) then b == a + 1
       else (forall p :: a <= p < b ==> !c.IsDelim(s[p])) && (b < |s| ==> c.IsDelim(s[b]))
  }

  datatype Span = Span(from: nat, to: nat)

  predicate AllDropped(c: CharSplit, s: string, i: nat, j: nat)
    requires j <= |s|
  {
    forall p :: i <= p < j ==> c.IsDropped(s[p])
  }

  /** Tokens in order from `i` on, with nothing but dropped delimiters before, between and after them. */
  predicate Covers(c: CharSplit, s: string, i: nat, spans: seq<Span>)
    decreases |spans|
  {
    if spans == [] then AllDropped(c, s, i, |s|)
    else
      var a, b := spans[0].from, spans[0].to;
      i <= a && IsToken(c, s, a, b) && AllDropped(c, s, i, a) && Covers(c, s, b, spans[1..])
  }

  function Slice(s: string, x: Span): string {
    if x.from <= x.to <= |s| then s[x.from..x.to] else ""
  }

  function Slices(s: string, spans: seq<Span>): seq<string> {
    if spans == [] then [] else [Slice(s, spans[0])] + Slices(s, spans[1..])
  }

  /** Where the token that starts at `a` ends. */
  function TokenEnd(c: CharSplit, s: string, a: nat): (b: nat)
    requires a < |s| && !c.IsDropped(s[a])
    ensures IsToken(c, s, a, b)
  {
    if c.IsKept(s[a]) then a + 1 else RunEnd(c, s, a)
  }

  function Spans(c: CharSplit, s: string, i: nat): seq<Span>
    requires i <= |s|
    decreases |s| - i
  {
    var a := SkipDropped(c, s, i);
    if a == |s| then [] else [Span(a, TokenEnd(c, s, a))] + Spans(c, s, TokenEnd(c, s, a))
  }

  lemma SlicesCons(s: string, x: Span, spans: seq<Span>)
    ensures Slices(s, [x] + spans) == [Slice(s, x)] + Slices(s, spans)
  {
    assert ([x] + spans)[1..] == spans;
  }

  lemma DroppingStep(c: CharSplit, done: bool, s: string, i: nat)
    requires !c.keepEmpty && i <= |s|
    ensures
      var a := SkipDropped(c, s, i);
      if a == |s| then Tokens(Chars(c, done), s, i) == Tokenized([], NoFailure)
      else
        var b := TokenEnd(c, s, a);
        Tokens(Chars(c, done), s, i)
          == (var rest := Tokens(Chars(c, done), s, b); Tokenized([s[a..b]] + rest.toks, rest.failure))
  {
    var a := SkipDropped(c, s, i);
    if a < |s| && c.IsKept(s[a]) {
      assert s[a..a + 1] == [s[a]];
    }
  }

  lemma {:induction false} DroppingYieldsSpans(c: CharSplit, s: string, i: nat, done: bool)
    requires !c.keepEmpty && i <= |s|
    ensures Tokens(Chars(c, done), s, i) == Tokenized(Slices(s, Spans(c, s, i)), NoFailure)
    decreases |s| - i
  {
    hide Tokens;
    DroppingStep(c, done, s, i);
    var a := SkipDropped(c, s, i);
    if a < |s| {
      var b := TokenEnd(c, s, a);
      DroppingYieldsSpans(c, s, b, done);
      SlicesCons(s, Span(a, b), Spans(c, s, b));
    }
  }

  lemma {:induction false} SpansCover(c: CharSplit, s: string, i: nat)
    requires i <= |s|
    ensures Covers(c, s, i, Spans(c, s, i))
    decreases |s| - i
  {
    var a := SkipDropped(c, s, i);
    if a < |s| {
      var b := TokenEnd(c, s, a);
      SpansCover(c, s, b);
      assert ([Span(a, b)] + Spans(c, s, b))[1..] == Spans(c, s, b);
    }
  }

  lemma {:induction false} SkipDroppedUnique(c: CharSplit, s: string, i: nat, a: nat)
    requires i <= a <= |s| && AllDropped(c, s, i, a)
    requires a < |s| ==> !c.IsDropped(s[a])
    ensures SkipDropped(c, s, i) == a
    decreases a - i
  {
    if i < a {
      SkipDroppedUnique(c, s, i + 1, a);
    }
  }

  lemma {:induction false} RunEndUnique(c: CharSplit, s: string, a: nat, b: nat)
    requires a <= b <= |s| && forall p :: a <= p < b ==> !c.IsDelim(s[p])
    requires b < |s| ==> c.IsDelim(s[b])
    ensures RunEnd(c, s, a) == b
    decreases b - a
  {
    if a < b {
      RunEndUnique(c, s, a + 1, b);
    }
  }

  lemma TokenEndUnique(c: CharSplit, s: string, a: nat, b: nat)
    requires IsToken(c, s, a, b)
    ensures b == TokenEnd(c, s, a)
  {
    if !c.IsKept(s[a]) {
      RunEndUnique(c, s, a, b);
    }
  }

  /** There is only one way to cover the input with tokens. */
  lemma {:induction false} CoverUnique(c: CharSplit, s: string, i: nat, spans: seq<Span>)
    requires i <= |s| && Covers(c, s, i, spans)
    ensures spans == Spans(c, s, i)
    decreases |spans|
  {
    if spans == [] {
      SkipDroppedUnique(c, s, i, |s|);
    } else {
      var a, b := spans[0].from, spans[0].to;
      SkipDroppedUnique(c, s, i, a);
      TokenEndUnique(c, s, a, b);
      CoverUnique(c, s, b, spans[1..]);
      assert spans == [spans[0]] + spans[1..];
    }
  }

  /** The tokens are the one cover of the input by kept delimiters and maximal runs. */
  lemma DroppingYieldsTheCover(c: CharSplit, s: string, spans: seq<Span>, done: bool)
    requires !c.keepEmpty
    ensures Covers(c, s, 0, Spans(c, s, 0))
    ensures Covers(c, s, 0, spans) ==> Tokenize(Chars(c, done), s) == Tokenized(Slices(s, spans), NoFailure)
  {
    hide Tokens;
    SpansCover(c, s, 0);
    DroppingYieldsSpans(c, s, 0, done);
    if Covers(c, s, 0, spans) {
      CoverUnique(c, s, 0, spans);
    }
  }

  // ---------------------------------------------------------------------------
  // Nothing but dropped delimiters is lost

  function Undropped(c: CharSplit, s: string, i: nat): string
    requires i <= |s|
    decreases |s| - i
  {
    if i == |s| then ""
    else (if c.IsDropped(s[i]) then "" else [s[i]]) + Undropped(c, s, i + 1)
  }

  lemma {:induction false} UndroppedAfterSkip(c: CharSplit, s: string, i: nat)
    requires i <= |s|
    ensures Undropped(c, s, i) == Undropped(c, s, SkipDropped(c, s, i))
    decreases |s| - i
  {
    if i < |s| && c.IsDropped(s[i]) {
      UndroppedAfterSkip(c, s, i + 1);
    }
  }

  lemma {:induction false} UndroppedRun(c: CharSplit, s: string, a: nat, b: nat)
    requires a <= b <= |s| && forall p :: a <= p < b ==> !c.IsDropped(s[p])
    ensures Undropped(c, s, a) == s[a..b] + Undropped(c, s, b)
    decreases b - a
  {
    if a < b {
      UndroppedRun(c, s, a + 1, b);
      assert s[a..b] == [s[a]] + s[a + 1..b];
    }
  }

  lemma {:induction false} FlattenSpans(c: CharSplit, s: string, i: nat)
    requires i <= |s|
    ensures Flatten(Slices(s, Spans(c, s, i))) == Undropped(c, s, i)
    ensures "" !in Slices(s, Spans(c, s, i))
    decreases |s| - i
  {
    hide Undropped;
    var a := SkipDropped(c, s, i);
    UndroppedAfterSkip(c, s, i);
    if a < |s| {
      var b := TokenEnd(c, s, a);
      FlattenSpans(c, s, b);
      UndroppedRun(c, s, a, b);
      SlicesCons(s, Span(a, b), Spans(c, s, b));
      var rest := Slices(s, Spans(c, s, b));
      assert ([s[a..b]] + rest)[1..] == rest;
    } else {
      UndroppedRun(c, s, a, a);
      UndroppedAtEnd(c, s);
    }
  }

  lemma UndroppedAtEnd(c: CharSplit, s: string)
    ensures Undropped(c, s, |s|) == ""
  {
  }

  /** Dropping mode: the tokens concatenate to the input without its dropped delimiters, and none is empty. */
  lemma DroppingConserves(c: CharSplit, s: string, done: bool)
    requires !c.keepEmpty
    ensures
      var t := Tokenize(Chars(c, done), s);
      t.failure.NoFailure? && Flatten(t.toks) == Undropped(c, s, 0) && "" !in t.toks
  {
    hide Tokens;
    if s != "" {
      DroppingYieldsSpans(c, s, 0, done);
      FlattenSpans(c, s, 0);
    }
  }
}
