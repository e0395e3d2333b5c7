/**
 offset_separator over a whole input: what the tokens add up to, how wide each is, and
 what refusing a partial last token really refuses.
 */
module OffsetTokens {
  import opened Integers
  import opened TokenSpec

  /** An offset of zero or less asks for nothing. */
  function Asked(c: int): nat {
    if c <= 0 then 0 else c
  }

  /** The width asked for by the k-th token. */
  function WidthOf(o: OffsetList, k: nat): nat
    requires |o.offsets| > 0
  {
    Asked(o.offsets[k % |o.offsets|])
  }

  function Sum(xs: seq<int>): nat {
    if xs == [] then 0 else Asked(xs[0]) + Sum(xs[1..])
  }

  /** How many of the `avail` characters left are ever looked at. */
  function Reach(o: OffsetList, current: nat, avail: nat): (reach: nat)
    requires current <= |o.offsets|
    ensures reach <= avail
  {
    if o.wrap || avail <= Sum(o.offsets[current..]) then avail else Sum(o.offsets[current..])
  }

  function Slot(o: OffsetList, current: nat): nat
    requires |o.offsets| > 0 && current <= |o.offsets|
  {
    if current == |o.offsets| then 0 else current
  }

  lemma SlotWidth(o: OffsetList, current: nat, k: nat)
    requires |o.offsets| > 0 && current <= |o.offsets|
    ensures WidthOf(o, current) == Asked(o.offsets[Slot(o, current)])
    ensures WidthOf(o, Slot(o, current) + 1 + k) == WidthOf(o, current + (k + 1))
  {
    var m := |o.offsets|;
    if current == m {
      assert m % m == 0;
      ModShift(k + 1, m);
    }
  }

  lemma ModShift(k: nat, m: nat)
    requires m > 0
    ensures (m + k) % m == k % m
  {
    Distribute(k / m, 1, m);
    QuotientUnique(m, k / m + 1, k % m, (m + k) / m, (m + k) % m);
  }

  /** One call, when there is input and an offset left. */
  lemma OffsetStep(o: OffsetList, current: nat, s: string, next: nat)
    requires next < |s| && Progressive(Offsets(o, current)) && (o.wrap || current < |o.offsets|)
    ensures
      var cur := Slot(o, current);
      var n := Width(o.offsets[cur], |s| - next);
      n <= |s| - next && n <= Asked(o.offsets[cur])
      && (n < Asked(o.offsets[cur]) ==> next + n == |s|)
      && Progressive(Offsets(o, cur + 1))
      && (n == 0 ==> Rank(Offsets(o, cur + 1)) < Rank(Offsets(o, current)))
      && Tokens(Offsets(o, current), s, next)
        == if !o.returnPartialLast && n < Asked(o.offsets[cur]) - 1 then Tokenized([], NoFailure)
           else
             var rest := Tokens(Offsets(o, cur + 1), s, next + n);
             Tokenized([s[next..next + n]] + rest.toks, rest.failure)
  {
    CallProgresses(Offsets(o, current), s, next);
  }

  lemma OffsetEnd(o: OffsetList, current: nat, s: string, next: nat)
    requires next <= |s| && Progressive(Offsets(o, current))
    requires next == |s| || (!o.wrap && current == |o.offsets|)
    ensures Tokens(Offsets(o, current), s, next) == Tokenized([], NoFailure)
  {
  }

  lemma FlattenCons(t: string, toks: seq<string>)
    ensures Flatten([t] + toks) == t + Flatten(toks)
  {
    assert ([t] + toks)[1..] == toks;
  }

  lemma ReachStep(o: OffsetList, current: nat, avail: nat)
    requires WellFormed(Offsets(o, current)) && (o.wrap || current < |o.offsets|)
    ensures
      var cur := Slot(o, current);
      var n := Width(o.offsets[cur], avail);
      n <= avail && Reach(o, current, avail) == n + Reach(o, cur + 1, avail - n)
  {
    if !o.wrap {
      assert o.offsets[current..][1..] == o.offsets[current + 1..];
    }
  }

  lemma ReachAtEnd(o: OffsetList, current: nat, avail: nat)
    requires current <= |o.offsets| && (avail == 0 || (!o.wrap && current == |o.offsets|))
    ensures Reach(o, current, avail) == 0
  {
  }

  /** The tokens add up to everything within reach of the offsets. */
  lemma {:induction false} TokensAddUp(o: OffsetList, current: nat, s: string, next: nat)
    requires o.returnPartialLast && next <= |s| && Progressive(Offsets(o, current))
    ensures
      var t := Tokens(Offsets(o, current), s, next);
      t.failure.NoFailure? && Flatten(t.toks) == s[next..next + Reach(o, current, |s| - next)]
    decreases |s| - next, Rank(Offsets(o, current))
  {
    hide Tokens, Reach, Rank;
    if next == |s| || (!o.wrap && current == |o.offsets|) {
      ReachAtEnd(o, current, |s| - next);
      OffsetEnd(o, current, s, next);
    } else {
      OffsetStep(o, current, s, next);
      ReachStep(o, current, |s| - next);
      var cur := Slot(o, current);
      var n := Width(o.offsets[cur], |s| - next);
      TokensAddUp(o, cur + 1, s, next + n);
      FlattenCons(s[next..next + n], Tokens(Offsets(o, cur + 1), s, next + n).toks);
    }
  }

  /** Token k is as wide as its offset says; only one that runs into the end of the input may be shorter. */
  predicate WidthOk(o: OffsetList, current: nat, toks: seq<string>, k: nat, complete: bool)
    requires |o.offsets| > 0 && k < |toks|
  {
    |toks[k]| <= WidthOf(o, current + k)
    && (|toks[k]| < WidthOf(o, current + k) ==> k == |toks| - 1 && complete)
  }

  predicate WidthsOk(o: OffsetList, current: nat, toks: seq<string>, complete: bool)
    requires |o.offsets| > 0
  {
    forall k :: 0 <= k < |toks| ==> WidthOk(o, current, toks, k, complete)
  }

  lemma {:induction false} TokenWidths(o: OffsetList, current: nat, s: string, next: nat)
    requires o.returnPartialLast && next <= |s| && Progressive(Offsets(o, current))
    ensures
      var toks := Tokens(Offsets(o, current), s, next).toks;
      WidthsOk(o, current, toks, Flatten(toks) == s[next..])
    decreases |s| - next, Rank(Offsets(o, current))
  {
    hide Tokens, WidthOf, WidthOk, Rank;
    if next == |s| || (!o.wrap && current == |o.offsets|) {
      OffsetEnd(o, current, s, next);
    } else {
      OffsetStep(o, current, s, next);
      var cur := Slot(o, current);
      var n := Width(o.offsets[cur], |s| - next);
      TokenWidths(o, cur + 1, s, next + n);
      var tok, rest := s[next..next + n], Tokens(Offsets(o, cur + 1), s, next + n).toks;
      FlattenCons(tok, rest);
      assert s[next..] == tok + s[next + n..];
      if next + n == |s| {
        OffsetEnd(o, cur + 1, s, next + n);
      }
      var toks, was := [tok] + rest, Flatten(rest) == s[next + n..];
      var complete := Flatten(toks) == s[next..];
      forall k | 0 <= k < |toks| ensures WidthOk(o, current, toks, k, complete) {
        if k == 0 {
          FirstWidth(o, current, tok, rest, complete);
        } else {
          LaterWidth(o, current, tok, rest, k - 1, was, complete);
        }
      }
    }
  }

  lemma FirstWidth(o: OffsetList, current: nat, tok: string, rest: seq<string>, complete: bool)
    requires |o.offsets| > 0 && current <= |o.offsets|
    requires |tok| <= Asked(o.offsets[Slot(o, current)])
    requires |tok| < Asked(o.offsets[Slot(o, current)]) ==> rest == [] && complete
    ensures WidthOk(o, current, [tok] + rest, 0, complete)
  {
    SlotWidth(o, current, 0);
    hide WidthOf;
    assert current + 0 == current;
  }

  lemma LaterWidth(o: OffsetList, current: nat, tok: string, rest: seq<string>, k: nat, was: bool, complete: bool)
    requires |o.offsets| > 0 && current <= |o.offsets| && k < |rest|
    requires WidthOk(o, Slot(o, current) + 1, rest, k, was) && (was ==> complete)
    ensures WidthOk(o, current, [tok] + rest, k + 1, complete)
  {
    SlotWidth(o, current, k);
    hide WidthOf;
    assert ([tok] + rest)[k + 1] == rest[k];
  }

  /** Offsets from the first on: together, what the tokens are. */
  lemma OffsetTokens(o: OffsetList, current: nat, s: string)
    requires o.returnPartialLast && Progressive(Offsets(o, current))
    ensures
      var t := Tokenize(Offsets(o, current), s);
      t.failure.NoFailure?
      && Flatten(t.toks) == s[..Reach(o, 0, |s|)]
      && WidthsOk(o, 0, t.toks, Flatten(t.toks) == s)
  {
    hide Tokens;
    TokensAddUp(o, 0, s, 0);
    TokenWidths(o, 0, s, 0);
    assert s[0..] == s;
    if s == "" {
      ReachAtEnd(o, 0, 0);
    }
  }

  // ---------------------------------------------------------------------------
  // return_partial_last == false

  /** Drops a last token that is at least two characters short. */
  function Trim(o: OffsetList, current: nat, toks: seq<string>): seq<string>
    requires |o.offsets| > 0
  {
    if toks != [] && |toks[|toks| - 1]| < WidthOf(o, current + (|toks| - 1)) - 1 then toks[..|toks| - 1] else toks
  }

  lemma {:induction false} RefusingPartialTrims(o: OffsetList, current: nat, s: string, next: nat)
    requires o.returnPartialLast && next <= |s| && Progressive(Offsets(o, current))
    ensures
      Tokens(Offsets(o.(returnPartialLast := false), current), s, next)
        == Tokenized(Trim(o, current, Tokens(Offsets(o, current), s, next).toks), NoFailure)
    decreases |s| - next, Rank(Offsets(o, current))
  {
    hide Tokens, WidthOf, Rank;
    var strict := o.(returnPartialLast := false);
    if next == |s| || (!o.wrap && current == |o.offsets|) {
      OffsetEnd(o, current, s, next);
      OffsetEnd(strict, current, s, next);
    } else {
      OffsetStep(o, current, s, next);
      OffsetStep(strict, current, s, next);
      var cur := Slot(o, current);
      var n := Width(o.offsets[cur], |s| - next);
      RefusingPartialTrims(o, cur + 1, s, next + n);
      var tok, rest := s[next..next + n], Tokens(Offsets(o, cur + 1), s, next + n).toks;
      SlotWidth(o, current, 0);
      if next + n == |s| {
        OffsetEnd(o, cur + 1, s, next + n);
        assert current + (|[tok]| - 1) == current;
      } else if rest == [] {
        assert current + (|[tok]| - 1) == current;
      } else {
        SlotWidth(o, current, |rest| - 1);
        TrimCons(o, current, cur + 1, tok, rest);
      }
    }
  }

  lemma TrimCons(o: OffsetList, current: nat, cur: nat, tok: string, rest: seq<string>)
    requires |o.offsets| > 0 && rest != []
    requires WidthOf(o, cur + (|rest| - 1)) == WidthOf(o, current + |rest|)
    ensures Trim(o, current, [tok] + rest) == [tok] + Trim(o, cur, rest)
  {
    hide WidthOf;
    assert ([tok] + rest)[|rest|] == rest[|rest| - 1];
    assert ([tok] + rest)[..|rest|] == [tok] + rest[..|rest| - 1];
  }

  /** A partial last token is refused exactly when it is two or more characters short. */
  lemma PartialRefusedExactly(o: OffsetList, s: string)
    requires o.returnPartialLast && Progressive(Offsets(o, 0))
    ensures
      var toks := Tokenize(Offsets(o, 0), s).toks;
      var strict := Tokenize(Offsets(o.(returnPartialLast := false), 0), s).toks;
      if toks != [] && |toks[|toks| - 1]| < WidthOf(o, |toks| - 1) - 1 then strict == toks[..|toks| - 1]
      else strict == toks
  {
    hide Tokens;
    RefusingPartialTrims(o, 0, s, 0);
    var toks := Tokenize(Offsets(o, 0), s).toks;
    assert 0 + (|toks| - 1) == |toks| - 1;
  }

  /** So a token one character short gets through: "abc" by twos, partial tokens refused, still yields "c". */
  lemma OneShortIsReturned()
    ensures
      var o := OffsetList([2], true, false);
      o.offsets[0] > 0 && Tokenize(Offsets(o, 0), "abc") == Tokenized(["ab", "c"], NoFailure)
  {
    var o := OffsetList([2], true, false);
    var s := "abc";
    assert o.offsets[0] > 0;
    OffsetStep(o, 0, s, 0);
    OffsetStep(o, 1, s, 2);
    OffsetEnd(o, 1, s, 3);
    assert s[0..2] == "ab" && s[2..3] == "c";
  }

  /** Offsets of zero or less stall: "ab" by one, nothing, one yields an empty token in between. */
  lemma ZeroOffsetYieldsEmptyToken()
    ensures
      var o := OffsetList([1, 0], true, true);
      o.offsets[0] > 0 && Tokenize(Offsets(o, 0), "ab") == Tokenized(["a", "", "b"], NoFailure)
  {
    var o := OffsetList([1, 0], true, true);
    var s := "ab";
    assert o.offsets[0] > 0;
    OffsetStep(o, 0, s, 0);
    OffsetStep(o, 1, s, 1);
    OffsetStep(o, 2, s, 1);
    OffsetEnd(o, 1, s, 2);
    assert s[0..1] == "a" && s[1..1] == "" && s[1..2] == "b";
  }
}
