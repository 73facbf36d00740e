/** The text scanners of scripts/verify_rust_api_parity.py: `_find_matching_bracket`, which
    looks past strings, escapes and comments, and `_split_top_level_args`. */
module BracketScanner {
  import opened Options

  /** Where a scanner stands: inside a string opened by `quote`, and right after a backslash. */
  datatype Lex = Lex(quote: Option<char>, escaped: bool)

  const PLAIN := Lex(None, false)

  predicate IsQuote(c: char) {
    c == '"' || c == '\'' || c == '`'
  }

  predicate IsOpen(c: char) {
    c == '(' || c == '[' || c == '{'
  }

  predicate IsClose(c: char) {
    c == ')' || c == ']' || c == '}'
  }

  /** What Python's `str.isspace` accepts. */
  predicate IsSpace(c: char) {
    var n := c as int;
    || 0x9 <= n <= 0xd || 0x1c <= n <= 0x20 || n == 0x85 || n == 0xa0 || n == 0x1680
    || 0x2000 <= n <= 0x200a || n == 0x2028 || n == 0x2029 || n == 0x202f || n == 0x205f || n == 0x3000
  }

  const SPACES: set<char> := {
    '\t', '\n', '\U{000b}', '\U{000c}', '\r', '\U{001c}', '\U{001d}', '\U{001e}', '\U{001f}', ' ', '\U{0085}', '\U{00a0}',
    '\U{1680}', '\U{2000}', '\U{2001}', '\U{2002}', '\U{2003}', '\U{2004}', '\U{2005}', '\U{2006}', '\U{2007}', '\U{2008}',
    '\U{2009}', '\U{200a}', '\U{2028}', '\U{2029}', '\U{202f}', '\U{205f}', '\U{3000}'}

  /** The classes of characters, one by one. */
  lemma CharactersListed(c: char)
    ensures IsSpace(c) <==> c in SPACES
    ensures IsQuote(c) <==> c in {'"', '\'', '`'}
    ensures IsOpen(c) <==> c in {'(', '[', '{'}
    ensures IsClose(c) <==> c in {')', ']', '}'}
  {
  }

  /** Neither part of a string or an escape nor the start of one. */
  predicate Visible(lex: Lex, c: char) {
    lex == PLAIN && c != '\\' && !IsQuote(c)
  }

  function Advance(lex: Lex, c: char): Lex {
    if lex.escaped then lex.(escaped := false)
    else if c == '\\' then lex.(escaped := true)
    else if lex.quote.Some? then if c == lex.quote.value then PLAIN else lex
    else if IsQuote(c) then Lex(Some(c), false)
    else lex
  }

  // ----- comments -----

  function LineLength(s: string): (n: nat)
    ensures n <= |s|
  {
    if s == [] || s[0] == '\r' || s[0] == '\n' then 0 else 1 + LineLength(s[1..])
  }

  /** Up to and with the closing marker, or to the end when there is none. */
  function BlockLength(s: string): (n: nat)
    ensures n <= |s|
  {
    if |s| < 2 then |s| else if s[0] == '*' && s[1] == '/' then 2 else 1 + BlockLength(s[1..])
  }

  /** The length of the comment that `s` starts with, or 0. */
  function CommentLength(s: string): (n: nat)
    ensures n <= |s|
  {
    if |s| < 2 || s[0] != '/' then 0
    else if s[1] == '/' then 2 + LineLength(s[2..])
    else if s[1] == '*' then 2 + BlockLength(s[2..])
    else 0
  }

  // ----- the matcher -----

  /** The place of the bracket that brings `depth` down to zero, or -1; `s` starts at `at`. */
  function FindClose(s: string, at: nat, depth: nat, lex: Lex, open: char, close: char): int
    requires depth >= 1
    decreases |s|
  {
    if s == [] then -1
    else if !Visible(lex, s[0]) then FindClose(s[1..], at + 1, depth, Advance(lex, s[0]), open, close)
    else
      var n := CommentLength(s);
      if n > 0 then FindClose(s[n..], at + n, depth, PLAIN, open, close)
      else if s[0] == open then FindClose(s[1..], at + 1, depth + 1, PLAIN, open, close)
      else if s[0] != close then FindClose(s[1..], at + 1, depth, PLAIN, open, close)
      else if depth == 1 then at
      else FindClose(s[1..], at + 1, depth - 1, PLAIN, open, close)
  }

  function MatchingBracket(text: string, openIndex: nat, open: char, close: char): int {
    if openIndex >= |text| then -1
    else
      var start := if text[openIndex] == open then openIndex + 1 else openIndex;
      FindClose(text[start..], start, 1, PLAIN, open, close)
  }

  /** The answer from `index` on; the scan may have left the text behind a block comment. */
  function Closing(text: string, index: nat, depth: nat, lex: Lex, open: char, close: char): int
    requires depth >= 1
    decreases |text| - index
  {
    if index >= |text| then -1
    else if !Visible(lex, text[index]) then Closing(text, index + 1, depth, Advance(lex, text[index]), open, close)
    else
      var n := CommentLength(text[index..]);
      if n > 0 then Closing(text, index + n, depth, PLAIN, open, close)
      else if text[index] == open then Closing(text, index + 1, depth + 1, PLAIN, open, close)
      else if text[index] != close then Closing(text, index + 1, depth, PLAIN, open, close)
      else if depth == 1 then index
      else Closing(text, index + 1, depth - 1, PLAIN, open, close)
  }

  lemma {:induction false} ClosingIsFindClose(text: string, index: nat, depth: nat, lex: Lex, open: char, close: char)
    requires depth >= 1 && index <= |text|
    ensures Closing(text, index, depth, lex, open, close) == FindClose(text[index..], index, depth, lex, open, close)
    decreases |text| - index
  {
    if index < |text| {
      assert text[index..][1..] == text[index + 1..];
      if !Visible(lex, text[index]) {
        ClosingIsFindClose(text, index + 1, depth, Advance(lex, text[index]), open, close);
        return;
      }
      var n := CommentLength(text[index..]);
      if n > 0 {
        assert text[index..][n..] == text[index + n..];
        ClosingIsFindClose(text, index + n, depth, PLAIN, open, close);
      } else if depth + Weight(text[index], open, close) >= 1 {
        ClosingIsFindClose(text, index + 1, depth + Weight(text[index], open, close), PLAIN, open, close);
      }
    }
  }

  lemma MatchingIsClosing(text: string, openIndex: nat, open: char, close: char)
    requires openIndex < |text|
    ensures MatchingBracket(text, openIndex, open, close)
         == Closing(text, if text[openIndex] == open then openIndex + 1 else openIndex, 1, PLAIN, open, close)
  {
    ClosingIsFindClose(text, if text[openIndex] == open then openIndex + 1 else openIndex, 1, PLAIN, open, close);
  }

  lemma NoComment(text: string, index: nat)
    requires index < |text|
    requires text[index] != '/' || index + 1 >= |text| || (text[index + 1] != '/' && text[index + 1] != '*')
    ensures CommentLength(text[index..]) == 0
  {
  }

  method FindMatchingBracket(text: string, openIndex: nat, open: char, close: char) returns (r: int)
    ensures r == MatchingBracket(text, openIndex, open, close)
  {
    if openIndex >= |text| {
      return -1;
    }
    MatchingIsClosing(text, openIndex, open, close);
    var depth, index := 1, openIndex;
    if text[openIndex] == open {
      index := openIndex + 1;
    }
    var lex := PLAIN;
    ghost var target := MatchingBracket(text, openIndex, open, close);
    while index < |text|
      invariant depth >= 1
      invariant target == Closing(text, index, depth, lex, open, close)
      decreases |text| - index
    {
      var ch := text[index];
      if !Visible(lex, ch) {
        lex := Advance(lex, ch);
        index := index + 1;
        continue;
      }
      if ch == '/' && index + 1 < |text| {
        if text[index + 1] == '/' {
          index := SkipLine(text, index);
          continue;
        }
        if text[index + 1] == '*' {
          index := SkipBlock(text, index);
          continue;
        }
      }
      NoComment(text, index);
      if ch == open {
        depth := depth + 1;
      } else if ch == close {
        depth := depth - 1;
        if depth == 0 {
          return index;
        }
      }
      index := index + 1;
    }
    return -1;
  }

  /** To the end of the line. */
  method SkipLine(text: string, start: nat) returns (index: nat)
    requires start + 1 < |text| && text[start] == '/' && text[start + 1] == '/'
    ensures index == start + CommentLength(text[start..]) > start
  {
    index := start + 2;
    assert text[start..][2..] == text[start + 2..];
    while index < |text| && text[index] != '\r' && text[index] != '\n'
      invariant start + 2 <= index <= |text|
      invariant index + LineLength(text[index..]) == start + CommentLength(text[start..])
    {
      assert text[index..][1..] == text[index + 1..];
      index := index + 1;
    }
  }

  /** Past the closing marker, or past the end of the text when there is none. */
  method SkipBlock(text: string, start: nat) returns (index: nat)
    requires start + 1 < |text| && text[start] == '/' && text[start + 1] == '*'
    ensures CommentLength(text[start..]) > 0
    ensures index <= |text| ==> index == start + CommentLength(text[start..])
    ensures index > |text| ==> start + CommentLength(text[start..]) == |text|
  {
    index := start + 2;
    assert text[start..][2..] == text[start + 2..];
    while index + 1 < |text| && !(text[index] == '*' && text[index + 1] == '/')
      invariant start + 2 <= index <= |text|
      invariant index + BlockLength(text[index..]) == start + CommentLength(text[start..])
    {
      assert text[index..][1..] == text[index + 1..];
      index := index + 1;
    }
    index := index + 2;
  }

  // ----- the matcher against counting -----

  /** A character outside strings, escapes and comments, with its place. */
  datatype Token = Token(at: nat, c: char)

  function Tokens(s: string, at: nat, lex: Lex): seq<Token>
    decreases |s|
  {
    if s == [] then []
    else if !Visible(lex, s[0]) then Tokens(s[1..], at + 1, Advance(lex, s[0]))
    else
      var n := CommentLength(s);
      if n > 0 then Tokens(s[n..], at + n, PLAIN) else [Token(at, s[0])] + Tokens(s[1..], at + 1, PLAIN)
  }

  function Weight(c: char, open: char, close: char): int {
    if c == open then 1 else if c == close then -1 else 0
  }

  /** The depth after the first `n` tokens: opening minus closing brackets. */
  function Level(tokens: seq<Token>, n: nat, depth: int, open: char, close: char): int
    requires n <= |tokens|
  {
    if n == 0 then depth else Level(tokens, n - 1, depth, open, close) + Weight(tokens[n - 1].c, open, close)
  }

  /** The first token after which every bracket is closed. */
  ghost predicate Balances(tokens: seq<Token>, k: nat, depth: int, open: char, close: char) {
    && k < |tokens|
    && Level(tokens, k + 1, depth, open, close) == 0
    && forall n :: 1 <= n <= k ==> Level(tokens, n, depth, open, close) > 0
  }

  lemma {:induction false} LevelLater(t: Token, tokens: seq<Token>, n: nat, depth: int, open: char, close: char)
    requires n <= |tokens|
    ensures Level([t] + tokens, n + 1, depth, open, close)
         == Level(tokens, n, depth + Weight(t.c, open, close), open, close)
  {
    if n > 0 {
      LevelLater(t, tokens, n - 1, depth, open, close);
      assert ([t] + tokens)[n] == tokens[n - 1];
    } else {
      assert Level([t] + tokens, 0, depth, open, close) == depth;
    }
  }

  lemma BalancesLater(t: Token, tokens: seq<Token>, k: nat, depth: int, open: char, close: char)
    requires Balances(tokens, k, depth + Weight(t.c, open, close), open, close)
    requires depth + Weight(t.c, open, close) >= 1
    ensures Balances([t] + tokens, k + 1, depth, open, close)
  {
    LevelLater(t, tokens, k + 1, depth, open, close);
    forall n | 1 <= n <= k + 1
      ensures Level([t] + tokens, n, depth, open, close) > 0
    {
      LevelLater(t, tokens, n - 1, depth, open, close);
    }
  }

  lemma BalancesEarlier(t: Token, tokens: seq<Token>, k: nat, depth: int, open: char, close: char)
    requires Balances([t] + tokens, k, depth, open, close)
    requires depth + Weight(t.c, open, close) >= 1
    ensures k >= 1 && Balances(tokens, k - 1, depth + Weight(t.c, open, close), open, close)
  {
    LevelLater(t, tokens, k, depth, open, close);
    forall n {:trigger Level(tokens, n, depth + Weight(t.c, open, close), open, close)} | 1 <= n <= k - 1
      ensures Level(tokens, n, depth + Weight(t.c, open, close), open, close) > 0
    {
      LevelLater(t, tokens, n, depth, open, close);
      assert Level([t] + tokens, n + 1, depth, open, close) > 0;
    }
  }

  ghost predicate Answers(tokens: seq<Token>, r: int, depth: int, open: char, close: char) {
    if r < 0 then r == -1 && forall k: nat :: !Balances(tokens, k, depth, open, close)
    else exists k: nat :: Balances(tokens, k, depth, open, close) && tokens[k].at == r
  }

  lemma AnswersLater(t: Token, tokens: seq<Token>, r: int, depth: int, open: char, close: char)
    requires depth + Weight(t.c, open, close) >= 1
    requires Answers(tokens, r, depth + Weight(t.c, open, close), open, close)
    ensures Answers([t] + tokens, r, depth, open, close)
  {
    if r < 0 {
      forall k: nat | Balances([t] + tokens, k, depth, open, close)
        ensures false
      {
        BalancesEarlier(t, tokens, k, depth, open, close);
        assert false;
      }
    } else {
      var k: nat :| Balances(tokens, k, depth + Weight(t.c, open, close), open, close) && tokens[k].at == r;
      BalancesLater(t, tokens, k, depth, open, close);
      assert ([t] + tokens)[k + 1].at == r;
    }
  }

  /** The one pass with its depth counter returns a place if and only if the brackets
      outside strings, escapes and comments balance there for the first time. */
  lemma {:induction false} FindCloseBalances(s: string, at: nat, depth: nat, lex: Lex, open: char, close: char)
    requires depth >= 1
    ensures Answers(Tokens(s, at, lex), FindClose(s, at, depth, lex, open, close), depth, open, close)
    decreases |s|
  {
    if s == [] {
      return;
    }
    if !Visible(lex, s[0]) {
      FindCloseBalances(s[1..], at + 1, depth, Advance(lex, s[0]), open, close);
      return;
    }
    var n := CommentLength(s);
    if n > 0 {
      FindCloseBalances(s[n..], at + n, depth, PLAIN, open, close);
      return;
    }
    var t, tokens := Token(at, s[0]), Tokens(s[1..], at + 1, PLAIN);
    var d := depth + Weight(s[0], open, close);
    if d == 0 {
      assert Level([t] + tokens, 0, 1, open, close) == 1;
      assert Balances([t] + tokens, 0, 1, open, close);
    } else {
      FindCloseBalances(s[1..], at + 1, d, PLAIN, open, close);
      AnswersLater(t, tokens, FindClose(s[1..], at + 1, d, PLAIN, open, close), depth, open, close);
    }
  }

  /** The bracket sought is the one that balances the text behind the opening bracket, or the
      text from the index on if no such bracket stands there. */
  lemma MatchingBalances(text: string, openIndex: nat, open: char, close: char)
    ensures openIndex >= |text| ==> MatchingBracket(text, openIndex, open, close) == -1
    ensures openIndex < |text| ==>
              var start := if text[openIndex] == open then openIndex + 1 else openIndex;
              Answers(Tokens(text[start..], start, PLAIN), MatchingBracket(text, openIndex, open, close), 1, open, close)
  {
    if openIndex < |text| {
      var start := if text[openIndex] == open then openIndex + 1 else openIndex;
      FindCloseBalances(text[start..], start, 1, PLAIN, open, close);
    }
  }

  predicate HasEndMark(s: string) {
    exists i :: 0 <= i < |s| - 1 && s[i] == '*' && s[i + 1] == '/'
  }

  lemma {:induction false} BlockRunsOut(s: string)
    requires !HasEndMark(s)
    ensures BlockLength(s) == |s|
  {
    if |s| >= 2 {
      assert forall i :: 0 <= i < |s| - 1 ==> s[1..][i] == s[i + 1];
      BlockRunsOut(s[1..]);
    }
  }

  /** Behind a block comment that never ends no bracket is found. */
  lemma OpenCommentHidesRest(s: string, at: nat, depth: nat, open: char, close: char)
    requires |s| >= 2 && s[0] == '/' && s[1] == '*' && !HasEndMark(s[2..]) && depth >= 1
    ensures FindClose(s, at, depth, PLAIN, open, close) == -1
  {
    BlockRunsOut(s[2..]);
    assert s[|s|..] == [];
  }

  /** Nor in a string that never ends. */
  lemma {:induction false} OpenStringHidesRest(s: string, at: nat, depth: nat, quote: char, escaped: bool, open: char, close: char)
    requires quote !in s && depth >= 1
    ensures FindClose(s, at, depth, Lex(Some(quote), escaped), open, close) == -1
    decreases |s|
  {
    if s != [] {
      var next := Advance(Lex(Some(quote), escaped), s[0]);
      assert next.quote == Some(quote);
      OpenStringHidesRest(s[1..], at + 1, depth, quote, next.escaped, open, close);
    }
  }

  // ----- the splitter -----

  /** The text cut at the commas outside brackets, strings and escapes. */
  function Pieces(s: string, depth: nat, lex: Lex): (r: seq<string>)
    ensures |r| > 0
  {
    if s == [] then [[]]
    else if Visible(lex, s[0]) && s[0] == ',' && depth == 0 then [[]] + Pieces(s[1..], 0, PLAIN)
    else Prepend([s[0]], Pieces(s[1..], DepthAfter(s[0], depth, lex), Advance(lex, s[0])))
  }

  function DepthAfter(c: char, depth: nat, lex: Lex): nat {
    if !Visible(lex, c) then depth
    else if IsOpen(c) then depth + 1
    else if IsClose(c) && depth > 0 then depth - 1
    else depth
  }

  function Prepend(front: string, pieces: seq<string>): (r: seq<string>)
    requires |pieces| > 0
    ensures |r| == |pieces|
  {
    [front + pieces[0]] + pieces[1..]
  }

  function StripStart(s: string): (r: string)
    ensures |r| <= |s|
  {
    if s != [] && IsSpace(s[0]) then StripStart(s[1..]) else s
  }

  function StripEnd(s: string): (r: string)
    ensures |r| <= |s|
  {
    if s != [] && IsSpace(s[|s| - 1]) then StripEnd(s[..|s| - 1]) else s
  }

  function Strip(s: string): string {
    StripEnd(StripStart(s))
  }

  function StripAll(pieces: seq<string>): seq<string> {
    seq(|pieces|, i requires 0 <= i < |pieces| => Strip(pieces[i]))
  }

  function NonEmpty(args: seq<string>): seq<string> {
    if args == [] then [] else (if args[0] == [] then [] else [args[0]]) + NonEmpty(args[1..])
  }

  lemma NonEmptyOne(x: string)
    ensures NonEmpty([x]) == if x == [] then [] else [x]
  {
  }

  lemma Associative<T>(a: seq<T>, b: seq<T>, c: seq<T>)
    ensures a + (b + c) == a + b + c
  {
  }

  /** Empty arguments are dropped wherever they stand, all others stay in order. */
  lemma {:induction false} NonEmptyConcat(a: seq<string>, b: seq<string>)
    ensures NonEmpty(a + b) == NonEmpty(a) + NonEmpty(b)
  {
    if a == [] {
      assert a + b == b;
    } else {
      NonEmptyConcat(a[1..], b);
      assert (a + b)[0] == a[0] && (a + b)[1..] == a[1..] + b;
      Associative(if a[0] == [] then [] else [a[0]], NonEmpty(a[1..]), NonEmpty(b));
    }
  }

  function TopLevelArgs(text: string): seq<string> {
    NonEmpty(StripAll(Pieces(text, 0, PLAIN)))
  }

  lemma PrependNothing(pieces: seq<string>)
    requires |pieces| > 0
    ensures Prepend([], pieces) == pieces
  {
    assert [] + pieces[0] == pieces[0];
  }

  /** The arguments still to come, `front` having been read of the first of them. */
  function Coming(front: string, s: string, depth: nat, lex: Lex): seq<string> {
    StripAll(Prepend(front, Pieces(s, depth, lex)))
  }

  lemma ComingAll(text: string)
    ensures Coming([], text, 0, PLAIN) == StripAll(Pieces(text, 0, PLAIN))
  {
    PrependNothing(Pieces(text, 0, PLAIN));
  }

  lemma ComingAtEnd(front: string, depth: nat, lex: Lex)
    ensures Coming(front, [], depth, lex) == [Strip(front)]
  {
    assert front + [] == front;
  }

  lemma ComingAtComma(front: string, s: string)
    requires s != [] && s[0] == ','
    ensures Coming(front, s, 0, PLAIN) == [Strip(front)] + Coming([], s[1..], 0, PLAIN)
  {
    PrependNothing(Pieces(s[1..], 0, PLAIN));
    CutStripped(front, Pieces(s[1..], 0, PLAIN));
  }

  lemma CutStripped(front: string, pieces: seq<string>)
    requires |pieces| > 0
    ensures StripAll(Prepend(front, [[]] + pieces)) == [Strip(front)] + StripAll(pieces)
  {
    assert front + [] == front;
    assert Prepend(front, [[]] + pieces) == [front] + pieces;
  }

  lemma ComingInside(front: string, s: string, depth: nat, lex: Lex)
    requires s != [] && !(Visible(lex, s[0]) && s[0] == ',' && depth == 0)
    ensures Coming(front, s, depth, lex)
         == Coming(front + [s[0]], s[1..], DepthAfter(s[0], depth, lex), Advance(lex, s[0]))
  {
    PrependTwice(front, [s[0]], Pieces(s[1..], DepthAfter(s[0], depth, lex), Advance(lex, s[0])));
  }

  lemma ComingStep(text: string, start: nat, index: nat, depth: nat, lex: Lex)
    requires start <= index < |text|
    ensures Coming(text[start..index], text[index..], depth, lex)
         == if Visible(lex, text[index]) && text[index] == ',' && depth == 0
            then [Strip(text[start..index])] + Coming(text[index + 1..index + 1], text[index + 1..], 0, PLAIN)
            else Coming(text[start..index + 1], text[index + 1..],
                        DepthAfter(text[index], depth, lex), Advance(lex, text[index]))
  {
    assert text[index..][1..] == text[index + 1..];
    if Visible(lex, text[index]) && text[index] == ',' && depth == 0 {
      ComingAtComma(text[start..index], text[index..]);
      assert text[index + 1..index + 1] == [];
    } else {
      ComingInside(text[start..index], text[index..], depth, lex);
      assert text[start..index] + [text[index]] == text[start..index + 1];
    }
  }

  /** The arguments from the cut at `start` on, with the scan at `index`. */
  function Remaining(text: string, start: nat, index: nat, depth: nat, lex: Lex): seq<string>
    requires start <= index <= |text|
    decreases |text| - index
  {
    if index == |text| then [Strip(text[start..])]
    else if Visible(lex, text[index]) && text[index] == ',' && depth == 0 then
      [Strip(text[start..index])] + Remaining(text, index + 1, index + 1, 0, PLAIN)
    else Remaining(text, start, index + 1, DepthAfter(text[index], depth, lex), Advance(lex, text[index]))
  }

  lemma {:induction false} RemainingIsComing(text: string, start: nat, index: nat, depth: nat, lex: Lex)
    requires start <= index <= |text|
    ensures Remaining(text, start, index, depth, lex) == Coming(text[start..index], text[index..], depth, lex)
    decreases |text| - index
  {
    if index == |text| {
      assert text[index..] == [] && text[start..index] == text[start..];
      ComingAtEnd(text[start..], depth, lex);
    } else {
      ComingStep(text, start, index, depth, lex);
      if Visible(lex, text[index]) && text[index] == ',' && depth == 0 {
        RemainingIsComing(text, index + 1, index + 1, 0, PLAIN);
      } else {
        RemainingIsComing(text, start, index + 1, DepthAfter(text[index], depth, lex), Advance(lex, text[index]));
      }
    }
  }

  lemma RemainingAtComma(args: seq<string>, text: string, start: nat, index: nat, depth: nat, lex: Lex)
    requires start <= index < |text| && Visible(lex, text[index]) && text[index] == ',' && depth == 0
    ensures args + Remaining(text, start, index, depth, lex)
         == args + [Strip(text[start..index])] + Remaining(text, index + 1, index + 1, depth, lex)
  {
  }

  lemma RemainingInside(text: string, start: nat, index: nat, depth: nat, lex: Lex)
    requires start <= index < |text| && !(Visible(lex, text[index]) && text[index] == ',' && depth == 0)
    ensures Remaining(text, start, index, depth, lex)
         == Remaining(text, start, index + 1, DepthAfter(text[index], depth, lex), Advance(lex, text[index]))
  {
  }

  lemma RemainingAll(text: string)
    ensures Remaining(text, 0, 0, 0, PLAIN) == StripAll(Pieces(text, 0, PLAIN))
  {
    RemainingIsComing(text, 0, 0, 0, PLAIN);
    assert text[0..] == text && text[0..0] == [];
    ComingAll(text);
  }

  method SplitTopLevelArgs(text: string) returns (r: seq<string>)
    ensures r == TopLevelArgs(text)
  {
    var args: seq<string>, start, index := [], 0, 0;
    var depth, lex := 0, PLAIN;
    RemainingAll(text);
    ghost var all := Remaining(text, 0, 0, 0, PLAIN);
    while index < |text|
      invariant 0 <= start <= index <= |text| && depth >= 0
      invariant all == args + Remaining(text, start, index, depth, lex)
    {
      var ch := text[index];
      if !Visible(lex, ch) {
        RemainingInside(text, start, index, depth, lex);
        lex := Advance(lex, ch);
        index := index + 1;
        continue;
      }
      if ch == ',' && depth == 0 {
        RemainingAtComma(args, text, start, index, depth, lex);
      } else {
        RemainingInside(text, start, index, depth, lex);
      }
      if IsOpen(ch) {
        depth := depth + 1;
      } else if IsClose(ch) {
        if depth > 0 {
          depth := depth - 1;
        }
      } else if ch == ',' && depth == 0 {
        args := args + [Strip(text[start..index])];
        start := index + 1;
      }
      index := index + 1;
    }
    args := args + [Strip(text[start..])];
    return NonEmpty(args);
  }

  lemma PrependTwice(a: string, b: string, pieces: seq<string>)
    requires |pieces| > 0
    ensures Prepend(a, Prepend(b, pieces)) == Prepend(a + b, pieces)
  {
    assert a + (b + pieces[0]) == (a + b) + pieces[0];
  }

  /** The pieces with the commas put back. */
  function Rejoined(pieces: seq<string>): string
    requires |pieces| > 0
  {
    if |pieces| == 1 then pieces[0] else pieces[0] + ([','] + Rejoined(pieces[1..]))
  }

  /** Cutting loses nothing, whatever the text. */
  lemma {:induction false} CuttingLosesNothing(s: string, depth: nat, lex: Lex)
    ensures Rejoined(Pieces(s, depth, lex)) == s
  {
    if s == [] {
      return;
    }
    if Visible(lex, s[0]) && s[0] == ',' && depth == 0 {
      CuttingLosesNothing(s[1..], 0, PLAIN);
      assert ([[]] + Pieces(s[1..], 0, PLAIN))[1..] == Pieces(s[1..], 0, PLAIN);
    } else {
      var pieces := Pieces(s[1..], DepthAfter(s[0], depth, lex), Advance(lex, s[0]));
      CuttingLosesNothing(s[1..], DepthAfter(s[0], depth, lex), Advance(lex, s[0]));
      assert Prepend([s[0]], pieces)[1..] == pieces[1..];
    }
  }
}
