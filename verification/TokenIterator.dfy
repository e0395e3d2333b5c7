/**
 The driver that turns a tokenizer function into a sequence of tokens: token_iterator,
 with its template instantiated at each of the three function classes.
 */
module TokenIterator {
  import opened TokenSpec
  import opened TokenFunctions

  datatype FunctionObject =
    | EscapedObject(escaped: EscapedListSeparator)
    | OffsetObject(offset: OffsetSeparator)
    | CharObject(chars: CharSeparator)
  {
    function Self(): object {
      match this
      case EscapedObject(e) => e
      case OffsetObject(o) => o
      case CharObject(c) => c
    }

    ghost function State(): Func
      reads Self()
    {
      match this
      case EscapedObject(e) => e.State()
      case OffsetObject(o) => o.State()
      case CharObject(c) => c.State()
    }

    method Reset()
      modifies Self()
      ensures State() == TokenSpec.Reset(old(State()))
    {
      match this
      case EscapedObject(e) => e.Reset();
      case OffsetObject(o) => o.Reset();
      case CharObject(c) => c.Reset();
    }

    method Invoke(s: string, next: nat, tok0: string) returns (r: CallResult, tok: string)
      requires next <= |s| && WellFormed(State())
      modifies Self()
      ensures (r, State()) == Call(old(State()), s, next)
      ensures tok == TextAfter(old(State()), s, next, tok0)
    {
      match this
      case EscapedObject(e) => r, tok := e.Invoke(s, next, tok0);
      case OffsetObject(o) => r, tok := o.Invoke(s, next, tok0);
      case CharObject(c) => r, tok := c.Invoke(s, next, tok0);
    }

    method Copy() returns (f: FunctionObject)
      ensures fresh(f.Self()) && f.State() == State()
    {
      if EscapedObject? {
        var e := new EscapedListSeparator.Copy(escaped);
        f := EscapedObject(e);
      } else if OffsetObject? {
        var o := new OffsetSeparator.Copy(offset);
        f := OffsetObject(o);
      } else {
        var c := new CharSeparator.Copy(chars);
        f := CharObject(c);
      }
    }
  }

  class TokenIterator {
    const s: string
    const f: FunctionObject
    var begin: nat
    var valid: bool
    var tok: string

    ghost predicate Valid()
      reads this, f.Self()
    {
      begin <= |s| && WellFormed(f.State()) && f.Self() != this
    }

    /** The tokens from the current one on. */
    ghost function Remaining(): Tokenized
      requires Valid() && Progressive(f.State())
      reads this, f.Self()
    {
      if valid then
        var rest := Tokens(f.State(), s, begin);
        Tokenized([tok] + rest.toks, rest.failure)
      else Tokenized([], NoFailure)
    }

    /** Positions the iterator before the range, with its own copy of the function. */
    constructor (f: FunctionObject, s: string)
      requires WellFormed(f.State())
      ensures this.s == s && fresh(this.f.Self()) && this.f.State() == old(f.State())
      ensures Valid() && begin == 0 && !valid && tok == ""
    {
      var g := f.Copy();
      this.f, this.s, begin, valid, tok := g, s, 0, false, "";
    }

    /** initialize: fetches the first token, unless the range is empty. */
    method Initialize() returns (failure: Failure)
      requires Valid()
      modifies this, f.Self()
      ensures Valid()
      ensures old(valid) ==> failure == NoFailure && valid && begin == old(begin) && tok == old(tok) && f.State() == old(f.State())
      ensures !old(valid) && old(begin) == |s| ==>
        failure == NoFailure && !valid && begin == old(begin) && tok == old(tok) && f.State() == TokenSpec.Reset(old(f.State()))
      ensures !old(valid) && old(begin) < |s| ==>
        Advanced(TokenSpec.Reset(old(f.State())), old(begin), old(tok), false, failure)
    {
      if valid {
        return NoFailure;
      }
      f.Reset();
      if begin != |s| {
        failure := Fetch();
      } else {
        valid, failure := false, NoFailure;
      }
    }

    /** increment: fetches the next token. */
    method Increment() returns (failure: Failure)
      requires Valid() && valid
      modifies this, f.Self()
      ensures Valid() && Advanced(old(f.State()), old(begin), old(tok), true, failure)
    {
      failure := Fetch();
    }

    /** The state in which a call from the given one leaves the iterator; a throwing call leaves it as valid as it was. */
    ghost predicate Advanced(from: Func, at: nat, text: string, wasValid: bool, failure: Failure)
      requires at <= |s| && WellFormed(from)
      reads this, f.Self()
    {
      var (r, state) := Call(from, s, at);
      && f.State() == state && begin == r.next && tok == TextAfter(from, s, at, text)
      && match r
         case Token(_, _) => valid && failure == NoFailure
         case End(_) => !valid && failure == NoFailure
         case Thrown(_, _, e) => valid == wasValid && failure == e
    }

    method Fetch() returns (failure: Failure)
      requires Valid()
      modifies this, f.Self()
      ensures Valid() && Advanced(old(f.State()), old(begin), old(tok), old(valid), failure)
    {
      CallStaysInside(f.State(), s, begin);
      var r;
      r, tok := f.Invoke(s, begin, tok);
      begin := r.next;
      match r
      case Token(_, _) =>
        valid, failure := true, NoFailure;
      case End(_) =>
        valid, failure := false, NoFailure;
      case Thrown(_, _, e) =>
        failure := e;
    }
  }

  lemma CallStaysInside(f: Func, s: string, next: nat)
    requires next <= |s| && WellFormed(f)
    ensures next <= Call(f, s, next).0.next <= |s| && WellFormed(Call(f, s, next).1)
  {
  }

  ghost function YetToCome(it: TokenIterator, toks: seq<string>): Tokenized
    requires it.Valid() && Progressive(it.f.State())
    reads it, it.f.Self()
  {
    Tokenized(toks + it.Remaining().toks, it.Remaining().failure)
  }

  /** What a successful fetch leaves to come is what the calls were going to produce. */
  lemma FetchedIsNext(f: Func, s: string, next: nat, text: string, was: bool, it: TokenIterator, failure: Failure)
    requires next <= |s| && Progressive(f) && it.s == s && it.Valid()
    requires it.Advanced(f, next, text, was, failure)
    ensures failure.NoFailure? ==> Progressive(it.f.State()) && it.Remaining() == Tokens(f, s, next)
    ensures failure.NoFailure? && it.valid ==>
      next <= it.begin && (it.begin == next ==> Rank(it.f.State()) < Rank(f))
    ensures !failure.NoFailure? ==> Tokens(f, s, next) == Tokenized([], failure)
  {
    CallProgresses(f, s, next);
  }

  /** The same with the tokens already collected in front. */
  lemma FetchedCompletes(f: Func, s: string, next: nat, text: string, was: bool, it: TokenIterator, failure: Failure,
                         toks: seq<string>)
    requires next <= |s| && Progressive(f) && it.s == s && it.Valid()
    requires it.Advanced(f, next, text, was, failure)
    ensures
      var rest := Tokens(f, s, next);
      var all := Tokenized(toks + rest.toks, rest.failure);
      if failure.NoFailure? then
        Progressive(it.f.State()) && YetToCome(it, toks) == all
        && (it.valid ==> next <= it.begin && (it.begin == next ==> Rank(it.f.State()) < Rank(f)))
        && (!it.valid ==> Tokenized(toks, failure) == all)
      else Tokenized(toks, failure) == all
  {
    hide Tokens, Rank, Call, TextAfter;
    FetchedIsNext(f, s, next, text, was, it, failure);
    assert toks + [] == toks;
  }

  lemma TokenizeStarts(f: Func, s: string)
    requires WellFormed(f) && (s == "" || Progressive(f))
    ensures s == "" ==> Tokenize(f, s) == Tokenized([], NoFailure)
    ensures s != "" ==> Progressive(TokenSpec.Reset(f)) && Tokenize(f, s) == Tokens(TokenSpec.Reset(f), s, 0)
  {
  }

  /** Iterating from begin to end, as `tokenizer` lets its clients do, yields `Tokenize`. */
  method Collect(f: FunctionObject, s: string) returns (all: Tokenized)
    requires WellFormed(f.State()) && (s == "" || Progressive(f.State()))
    ensures all == Tokenize(f.State(), s)
  {
    hide Tokens, Rank, Progressive, Call, TextAfter, Tokenize;
    var it := new TokenIterator(f, s);
    ghost var goal := Tokenize(f.State(), s);
    var toks := [];
    var failure := it.Initialize();
    TokenizeStarts(f.State(), s);
    if s != "" {
      FetchedCompletes(TokenSpec.Reset(f.State()), s, 0, "", false, it, failure, toks);
      assert [] + goal.toks == goal.toks;
    }
    while failure.NoFailure? && it.valid
      invariant fresh(it) && fresh(it.f.Self()) && it.s == s && it.Valid()
      invariant !(failure.NoFailure? && it.valid) ==> Tokenized(toks, failure) == goal
      invariant failure.NoFailure? && it.valid ==> Progressive(it.f.State()) && YetToCome(it, toks) == goal
      decreases failure.NoFailure?, it.valid, |s| - it.begin, Rank(it.f.State())
    {
      ghost var before, at, text := it.f.State(), it.begin, it.tok;
      ghost var rest := Tokens(before, s, at);
      assert (toks + [text]) + rest.toks == toks + ([text] + rest.toks);
      toks := toks + [it.tok];
      failure := it.Increment();
      FetchedCompletes(before, s, at, text, true, it, failure, toks);
    }
    all := Tokenized(toks, failure);
  }
}
