/**
 The tokenizer function objects: call operators that advance a position, build a
 token and carry a flag or an offset from one call to the next.
 */
module TokenFunctions {
  import opened TokenSpec

  class EscapedListSeparator {
    const list: EscapedList
    var last: bool

    constructor (escape: string, sep: string, quote: string)
      ensures list == EscapedList(escape, sep, quote) && !last
    {
      list, last := EscapedList(escape, sep, quote), false;
    }

    constructor Copy(other: EscapedListSeparator)
      ensures list == other.list && last == other.last
    {
      list, last := other.list, other.last;
    }

    ghost function State(): Func
      reads this
    {
      Escaped(list, last)
    }

    method Reset()
      modifies this
      ensures State() == TokenSpec.Reset(old(State()))
    {
      last := false;
    }

    /** do_escape: `next` is on the escape character, and is left on the escaped one. */
    method DoEscape(s: string, next: nat, tok: string) returns (failure: Failure, next': nat, tok': string)
      requires next < |s| && s[next] in list.escape
      ensures next' == next + 1
      ensures failure == CannotEndWithEscape <==> next + 1 == |s|
      ensures failure == UnknownEscapeSequence <==>
        next + 1 < |s| && s[next + 1] != 'n'
        && s[next + 1] !in list.quote && s[next + 1] !in list.sep && s[next + 1] !in list.escape
      ensures tok' == if failure.NoFailure? then tok + [if s[next + 1] == 'n' then '\n' else s[next + 1]] else tok
      ensures forall inQuote ::
        ScanField(list, s, next, inQuote, tok) ==
          if failure.NoFailure? then ScanField(list, s, next' + 1, inQuote, tok') else BadField(next', tok', failure)
    {
      failure, next', tok' := NoFailure, next + 1, tok;
      if next' == |s| {
        failure := CannotEndWithEscape;
      } else if s[next'] == 'n' {
        tok' := tok + ['\n'];
      } else if s[next'] in list.quote {
        tok' := tok + [s[next']];
      } else if s[next'] in list.sep {
        tok' := tok + [s[next']];
      } else if s[next'] in list.escape {
        tok' := tok + [s[next']];
      } else {
        failure := UnknownEscapeSequence;
      }
    }

    method Invoke(s: string, next: nat, tok0: string) returns (r: CallResult, tok: string)
      requires next <= |s|
      modifies this
      ensures (r, State()) == Call(old(State()), s, next)
      ensures tok == TextAfter(old(State()), s, next, tok0)
    {
      var inQuote := false;
      tok := "";
      if next == |s| {
        if last {
          last := false;
          return Token(next, tok), tok;
        }
        return End(next), tok;
      }
      last := false;
      var i := next;
      while i < |s|
        invariant next <= i <= |s| && !last
        invariant ScanField(list, s, i, inQuote, tok) == ScanField(list, s, next, false, "")
      {
        if s[i] in list.escape {
          var failure;
          failure, i, tok := DoEscape(s, i, tok);
          if !failure.NoFailure? {
            return Thrown(i, tok, failure), tok;
          }
        } else if s[i] in list.sep {
          if !inQuote {
            last := true;
            return Token(i + 1, tok), tok;
          } else {
            tok := tok + [s[i]];
          }
        } else if s[i] in list.quote {
          inQuote := !inQuote;
        } else {
          tok := tok + [s[i]];
        }
        i := i + 1;
      }
      return Token(i, tok), tok;
    }
  }

  class OffsetSeparator {
    const at: OffsetList
    var current: nat

    constructor (offsets: seq<int>, wrap: bool, returnPartialLast: bool)
      ensures at == OffsetList(offsets, wrap, returnPartialLast) && current == 0
    {
      at, current := OffsetList(offsets, wrap, returnPartialLast), 0;
    }

    constructor Copy(other: OffsetSeparator)
      ensures at == other.at && current == other.current
    {
      at, current := other.at, other.current;
    }

    ghost function State(): Func
      reads this
    {
      Offsets(at, current)
    }

    method Reset()
      modifies this
      ensures State() == TokenSpec.Reset(old(State()))
    {
      current := 0;
    }

    method Invoke(s: string, next: nat, tok0: string) returns (r: CallResult, tok: string)
      requires next <= |s| && WellFormed(State())
      modifies this
      ensures (r, State()) == Call(old(State()), s, next)
      ensures tok == TextAfter(old(State()), s, next, tok0)
    {
      tok := tok0;
      if next == |s| {
        return End(next), tok;
      }
      if current == |at.offsets| {
        if at.wrap {
          current := 0;
        } else {
          return End(next), tok;
        }
      }
      var c := at.offsets[current];
      var i, n := 0, next;
      while i < c
        invariant 0 <= i && (i <= c || i == 0) && n == next + i <= |s|
        decreases c - i
      {
        if n == |s| {
          break;
        }
        n := n + 1;
        i := i + 1;
      }
      tok := s[next..n];
      if !at.returnPartialLast {
        if i < c - 1 {
          return End(n), tok;
        }
      }
      current := current + 1;
      return Token(n, tok), tok;
    }
  }

  class CharSeparator {
    const split: CharSplit
    var outputDone: bool

    constructor (dropped: string, kept: string, keepEmpty: bool, punct: set<char>, space: set<char>)
      ensures split == GivenDelims(dropped, kept, keepEmpty, punct, space) && !outputDone
    {
      split, outputDone := GivenDelims(dropped, kept, keepEmpty, punct, space), false;
    }

    /** The flag is not set here, as no token is ever kept for being empty. */
    constructor ByLocale(punct: set<char>, space: set<char>)
      ensures split == LocaleDelims(punct, space)
    {
      split := LocaleDelims(punct, space);
    }

    constructor Copy(other: CharSeparator)
      ensures split == other.split && outputDone == other.outputDone
    {
      split, outputDone := other.split, other.outputDone;
    }

    ghost function State(): Func
      reads this
    {
      Chars(split, outputDone)
    }

    method Reset()
      ensures State() == TokenSpec.Reset(State())
    {
    }

    /** Moves past all characters that are not delimiters. */
    method SkipRun(s: string, start: nat) returns (j: nat)
      requires start <= |s|
      ensures j == RunEnd(split, s, start)
    {
      j := start;
      while j < |s| && !split.IsDropped(s[j]) && !split.IsKept(s[j])
        invariant start <= j <= |s| && RunEnd(split, s, j) == RunEnd(split, s, start)
      {
        j := j + 1;
      }
    }

    method Invoke(s: string, next: nat, tok0: string) returns (r: CallResult, tok: string)
      requires next <= |s|
      modifies this
      ensures (r, State()) == Call(old(State()), s, next)
      ensures tok == TextAfter(old(State()), s, next, tok0)
    {
      var n := next;
      if !split.keepEmpty {
        while n < |s| && split.IsDropped(s[n])
          invariant next <= n <= |s| && SkipDropped(split, s, n) == SkipDropped(split, s, next)
        {
          n := n + 1;
        }
      }
      var start := n;
      if !split.keepEmpty {
        if n == |s| {
          return End(n), tok0;
        }
        if split.IsKept(s[n]) {
          n := n + 1;
          assert s[start..n] == [s[start]];
        } else {
          n := SkipRun(s, n);
        }
      } else {
        if n == |s| {
          if !outputDone {
            outputDone := true;
            assert s[start..n] == "";
            return Token(n, s[start..n]), s[start..n];
          } else {
            return End(n), tok0;
          }
        }
        if split.IsKept(s[n]) {
          if !outputDone {
            outputDone := true;
            assert s[start..n] == "";
          } else {
            n := n + 1;
            outputDone := false;
            assert s[start..n] == [s[start]];
          }
        } else if !outputDone && split.IsDropped(s[n]) {
          outputDone := true;
          assert s[start..n] == "";
        } else {
          if split.IsDropped(s[n]) {
            n := n + 1;
            start := n;
          }
          n := SkipRun(s, n);
          outputDone := true;
        }
      }
      return Token(n, s[start..n]), s[start..n];
    }
  }
}
