/** Resolving a frontend path expression through the collected builder functions
    (`_resolve_frontend_path` in scripts/verify_rust_api_parity.py). */
module PathResolver {
  import opened Options
  import opened BracketScanner
  import opened CallText
  import opened BuilderCalls
  import ArgumentCuts

  /** Template parameters and route spelling are normalised by this function of the text. */
  type Leaf = string -> Option<string>

  function RemoveSpace(s: string): (r: string)
    ensures |r| <= |s|
  {
    if s == [] then [] else (if IsSpace(s[0]) then [] else [s[0]]) + RemoveSpace(s[1..])
  }

  predicate EndsWith(s: string, c: char) {
    s != [] && s[|s| - 1] == c
  }

  function IndexOf(s: string, c: char): (k: int)
    ensures -1 <= k < |s|
    ensures k < 0 ==> c !in s
    ensures k >= 0 ==> s[k] == c && c !in s[..k]
  {
    if s == [] then -1
    else if s[0] == c then 0
    else
      var k := IndexOf(s[1..], c);
      assert k >= 0 ==> s[..k + 1] == [s[0]] + s[1..][..k];
      if k < 0 then -1 else k + 1
  }

  lemma {:induction false} FirstIndex(s: string, c: char, k: nat)
    requires k < |s| && s[k] == c && c !in s[..k]
    ensures IndexOf(s, c) == k
  {
    if k > 0 {
      assert s[0] in s[..k];
      assert s[..k] == [s[0]] + s[1..][..k - 1];
      FirstIndex(s[1..], c, k - 1);
    }
  }

  function Unquote(s: string): string
    requires |s| >= 2
  {
    s[1..|s| - 1]
  }

  predicate NameStart(c: char) {
    'A' <= c <= 'Z' || 'a' <= c <= 'z' || c == '_'
  }

  predicate NamePart(c: char) {
    NameStart(c) || '0' <= c <= '9'
  }

  function NameLength(s: string): (n: nat)
    ensures n <= |s|
  {
    if s == [] || !NamePart(s[0]) then 0 else 1 + NameLength(s[1..])
  }

  /** The name before an opening bracket. */
  function CalledName(s: string): Option<string> {
    var n := NameLength(s);
    if s != [] && NameStart(s[0]) && n < |s| && s[n] == '(' then Some(s[..n]) else None
  }

  // ----- one step -----

  const JOIN := "joinBaseUrl"
  const APPEND := "appendOptionalParams"
  const SURFACE := "normalizeSurfaceKey"

  /** The expression starts as a call of the function. */
  predicate Calls(expr: string, name: string)
    ensures Calls(expr, name) ==> '(' in expr && (name != [] ==> expr[0] == name[0])
  {
    assert name + ['('] <= expr ==> expr[|name|] == '(';
    name + ['('] <= expr
  }

  /** The arguments of the call that `expr` starts with, if its bracket is closed. */
  function CallArguments(expr: string): (r: Option<seq<string>>)
    requires '(' in expr
    ensures r.Some? ==> forall i :: 0 <= i < |r.value| ==> |r.value[i]| < |expr|
  {
    var open := IndexOf(expr, '(');
    var close := MatchingBracket(expr, open, '(', ')');
    if close < 0 then None
    else
      MatchInside(expr, open, '(', ')');
      var inside := expr[open + 1..close];
      ArgumentsAreShorter(inside);
      Some(TopLevelArgs(inside))
  }

  /** Reading an expression that has no white space left. */
  function ReduceCompact(expr: string, leaf: Leaf): (r: Next)
    ensures r.Through? ==> |r.expression| < |expr|
  {
    if |expr| <= 1 && (expr == [] || IsQuote(expr[0])) then Answer(None)
    else if IsQuote(expr[0]) && EndsWith(expr, expr[0]) then Answer(leaf(Unquote(expr)))
    else if expr[0] == '/' || "`/" <= expr then Answer(leaf(expr))
    else if Calls(expr, JOIN) then
      var args := CallArguments(expr);
      if args.Some? && |args.value| >= 2 then Through(args.value[1]) else Answer(None)
    else if Calls(expr, APPEND) then
      var args := CallArguments(expr);
      if args.Some? && |args.value| >= 1 then Through(args.value[0]) else Answer(None)
    else if Calls(expr, SURFACE) then Answer(None)
    else
      var name := CalledName(expr);
      if name.Some? then Call(name.value) else Answer(None)
  }

  function Reduce(expression: string, leaf: Leaf): (r: Next)
    ensures r.Through? ==> |r.expression| < |expression|
  {
    if Strip(expression) == [] then Answer(None) else ReduceCompact(RemoveSpace(Strip(expression)), leaf)
  }

  function StepOf(leaf: Leaf): Step {
    (expression: string) => Reduce(expression, leaf)
  }

  lemma {:induction false} FindInside(s: string, at: nat, depth: nat, lex: Lex, open: char, close: char)
    requires depth >= 1
    ensures var r := FindClose(s, at, depth, lex, open, close); r == -1 || at <= r < at + |s|
    decreases |s|
  {
    if s == [] {
      return;
    }
    if !Visible(lex, s[0]) {
      FindInside(s[1..], at + 1, depth, Advance(lex, s[0]), open, close);
      return;
    }
    var n := CommentLength(s);
    if n > 0 {
      FindInside(s[n..], at + n, depth, PLAIN, open, close);
    } else if depth + Weight(s[0], open, close) >= 1 {
      FindInside(s[1..], at + 1, depth + Weight(s[0], open, close), PLAIN, open, close);
    }
  }

  lemma MatchInside(text: string, openIndex: nat, open: char, close: char)
    requires openIndex < |text| && text[openIndex] == open
    ensures var r := MatchingBracket(text, openIndex, open, close); r == -1 || openIndex < r < |text|
  {
    FindInside(text[openIndex + 1..], openIndex + 1, 1, PLAIN, open, close);
  }

  lemma {:induction false} PiecesAreShorter(s: string, depth: nat, lex: Lex)
    ensures forall i :: 0 <= i < |Pieces(s, depth, lex)| ==> |Pieces(s, depth, lex)[i]| <= |s|
  {
    if s != [] {
      PiecesAreShorter(s[1..], DepthAfter(s[0], depth, lex), Advance(lex, s[0]));
      PiecesAreShorter(s[1..], 0, PLAIN);
    }
  }

  lemma {:induction false} NonEmptyOnlyDrops(args: seq<string>, i: nat)
    requires i < |NonEmpty(args)|
    ensures NonEmpty(args)[i] in args
  {
    if args[0] == [] {
      NonEmptyOnlyDrops(args[1..], i);
    } else if i > 0 {
      NonEmptyOnlyDrops(args[1..], i - 1);
    }
  }

  lemma ArgumentsAreShorter(text: string)
    ensures forall i :: 0 <= i < |TopLevelArgs(text)| ==> |TopLevelArgs(text)[i]| <= |text|
  {
    PiecesAreShorter(text, 0, PLAIN);
    var stripped := StripAll(Pieces(text, 0, PLAIN));
    forall i | 0 <= i < |TopLevelArgs(text)|
      ensures |TopLevelArgs(text)[i]| <= |text|
    {
      NonEmptyOnlyDrops(stripped, i);
    }
  }

  // ----- resolution -----

  /** Python's mutable set of the builders being resolved. */
  class NameSet {
    var names: set<string>

    constructor ()
      ensures names == {}
    {
      names := {};
    }
  }

  method Resolve(expression: string, builders: map<string, string>, leaf: Leaf, seen: NameSet)
      returns (r: Option<string>)
    modifies seen
    ensures r == Resolved(expression, builders, StepOf(leaf), old(seen.names))
    ensures seen.names == old(seen.names)
    decreases builders.Keys - seen.names, |expression|
  {
    if Strip(expression) == [] {
      return None;
    }
    var expr := RemoveSpace(Strip(expression));
    if expr == [] || expr == "\"" || expr == "'" || expr == "`" {
      return None;
    }
    if expr[0] == '`' && EndsWith(expr, '`') {
      return leaf(Unquote(expr));
    }
    if (expr[0] == '\'' || expr[0] == '"') && EndsWith(expr, expr[0]) {
      return leaf(Unquote(expr));
    }
    if expr[0] == '/' || "`/" <= expr {
      return leaf(expr);
    }
    if Calls(expr, JOIN) || Calls(expr, APPEND) {
      r := ResolveArgument(expression, expr, builders, leaf, seen);
      return;
    }
    if Calls(expr, SURFACE) {
      return None;
    }
    r := FollowBuilder(expression, expr, builders, leaf, seen);
  }

  /** A call of a builder function, which is marked as seen while its body is resolved. */
  method FollowBuilder(ghost expression: string, expr: string, builders: map<string, string>, leaf: Leaf, seen: NameSet)
      returns (r: Option<string>)
    modifies seen
    ensures seen.names == old(seen.names)
    ensures var call := CalledName(expr);
            r == if call.Some? && call.value !in seen.names && call.value in builders
                 then Resolved(builders[call.value], builders, StepOf(leaf), seen.names + {call.value}) else None
    decreases builders.Keys - seen.names, |expression|, 0
  {
    var call := CalledName(expr);
    if call.None? {
      return None;
    }
    var name := call.value;
    if name in seen.names || name !in builders {
      return None;
    }
    assert name in builders.Keys - seen.names;
    seen.names := seen.names + {name};
    r := Resolve(builders[name], builders, leaf, seen);
    seen.names := seen.names - {name};
  }

  /** The two wrapper calls whose path is one of their arguments. */
  method ResolveArgument(ghost expression: string, expr: string, builders: map<string, string>, leaf: Leaf, seen: NameSet)
      returns (r: Option<string>)
    requires Calls(expr, JOIN) || Calls(expr, APPEND)
    requires |expr| <= |expression|
    modifies seen
    ensures seen.names == old(seen.names)
    ensures var args := CallArguments(expr);
            var k := if Calls(expr, JOIN) then 1 else 0;
            r == if args.Some? && |args.value| > k then Resolved(args.value[k], builders, StepOf(leaf), seen.names) else None
    decreases builders.Keys - seen.names, |expression|, 0
  {
    var openPos := IndexOf(expr, '(');
    var closePos := FindMatchingBracket(expr, openPos, '(', ')');
    if closePos < 0 {
      return None;
    }
    MatchInside(expr, openPos, '(', ')');
    var args := SplitTopLevelArgs(expr[openPos + 1..closePos]);
    ArgumentsAreShorter(expr[openPos + 1..closePos]);
    if Calls(expr, JOIN) {
      if |args| >= 2 {
        r := Resolve(args[1], builders, leaf, seen);
        return;
      }
      return None;
    }
    if args == [] {
      return None;
    }
    r := Resolve(args[0], builders, leaf, seen);
  }

  // ----- wrapper calls as they are written -----

  lemma JoinRead(expr: string, texts: seq<string>, leaf: Leaf)
    requires Calls(expr, JOIN) && CallArguments(expr) == Some(texts)
    ensures ReduceCompact(expr, leaf) == if |texts| >= 2 then Through(texts[1]) else Answer(None)
  {
    assert expr[0] == 'j';
  }

  lemma AppendRead(expr: string, texts: seq<string>, leaf: Leaf)
    requires Calls(expr, APPEND) && CallArguments(expr) == Some(texts)
    ensures ReduceCompact(expr, leaf) == if |texts| >= 1 then Through(texts[0]) else Answer(None)
  {
    assert expr[0] == 'a';
    assert !Calls(expr, JOIN);
  }

  /** A written `joinBaseUrl(base, path, ...)` resolves as its second argument. */
  lemma JoinReducesToSecond(expression: string, args: seq<Argument>, rest: string, leaf: Leaf)
    requires AllPrintable(args)
    requires RemoveSpace(Strip(expression)) == JOIN + ['('] + ArgumentList(args) + [')'] + rest
    ensures Reduce(expression, leaf) == if |args| >= 2 then Through(Render(args[1].code)) else Answer(None)
  {
    WrittenArguments(RemoveSpace(Strip(expression)), JOIN, args, rest);
    JoinRead(RemoveSpace(Strip(expression)), Texts(args), leaf);
  }

  /** A written `appendOptionalParams(path, ...)` resolves as its first argument. */
  lemma AppendReducesToFirst(expression: string, args: seq<Argument>, rest: string, leaf: Leaf)
    requires AllPrintable(args)
    requires RemoveSpace(Strip(expression)) == APPEND + ['('] + ArgumentList(args) + [')'] + rest
    ensures Reduce(expression, leaf) == if |args| >= 1 then Through(Render(args[0].code)) else Answer(None)
  {
    WrittenArguments(RemoveSpace(Strip(expression)), APPEND, args, rest);
    AppendRead(RemoveSpace(Strip(expression)), Texts(args), leaf);
  }

  lemma CallStarts(expr: string, name: string, tail: string)
    requires '(' !in name && expr == name + (['('] + tail)
    ensures Calls(expr, name) && |name| < |expr| && IndexOf(expr, '(') == |name|
  {
    assert expr[..|name|] == name && expr[|name|] == '(';
    assert expr[..|name| + 1] == name + ['('];
    FirstIndex(expr, '(', |name|);
  }

  lemma WrittenArguments(expr: string, name: string, args: seq<Argument>, rest: string)
    requires '(' !in name && AllPrintable(args)
    requires expr == name + ['('] + ArgumentList(args) + [')'] + rest
    ensures Calls(expr, name) && CallArguments(expr) == Some(Texts(args))
  {
    CallTail(name, ArgumentList(args), rest);
    CallStarts(expr, name, ArgumentList(args) + ([')'] + rest));
    ReadingUndoesWriting(name, args, rest, '(', ')');
  }

  lemma CallTail(name: string, list: string, rest: string)
    ensures name + ['('] + list + [')'] + rest == name + (['('] + (list + ([')'] + rest)))
  {
  }

  // ----- the other expressions as they are written -----

  lemma {:induction false} RemoveSpaceConcat(a: string, b: string)
    ensures RemoveSpace(a + b) == RemoveSpace(a) + RemoveSpace(b)
  {
    if a == [] {
      assert a + b == b;
    } else {
      RemoveSpaceConcat(a[1..], b);
      assert (a + b)[0] == a[0] && (a + b)[1..] == a[1..] + b;
      Associative(if IsSpace(a[0]) then [] else [a[0]], RemoveSpace(a[1..]), RemoveSpace(b));
    }
  }

  lemma {:induction false} RemoveSpaceOfBlank(s: string)
    requires ArgumentCuts.Blank(s)
    ensures RemoveSpace(s) == []
  {
    if s != [] {
      RemoveSpaceOfBlank(s[1..]);
    }
  }

  lemma {:induction false} RemoveSpaceOfSolid(s: string)
    requires forall i :: 0 <= i < |s| ==> !IsSpace(s[i])
    ensures RemoveSpace(s) == s
  {
    if s != [] {
      RemoveSpaceOfSolid(s[1..]);
      assert [s[0]] + s[1..] == s;
    }
  }

  /** Only the characters that are no blanks matter, wherever the blanks stand. */
  lemma BlanksDoNotMatter(expression: string, leaf: Leaf)
    ensures Reduce(expression, leaf) ==
            if RemoveSpace(expression) == [] then Answer(None) else ReduceCompact(RemoveSpace(expression), leaf)
  {
    RemoveSpaceTrimmed(expression);
    if Strip(expression) != [] {
      SolidStays(expression);
    }
  }

  lemma RemoveSpaceTrimmed(s: string)
    ensures RemoveSpace(s) == RemoveSpace(Strip(s))
  {
    var front, back := ArgumentCuts.StripTrims(s);
    RemoveSpaceConcat(front + Strip(s), back);
    RemoveSpaceConcat(front, Strip(s));
    RemoveSpaceOfBlank(front);
    RemoveSpaceOfBlank(back);
  }

  lemma SolidStays(s: string)
    requires Strip(s) != []
    ensures RemoveSpace(Strip(s)) != []
  {
    var _, _ := ArgumentCuts.StripTrims(s);
  }

  /** A letter or underscore, then letters, digits and underscores. */
  predicate Identifier(name: string) {
    && name != []
    && ('A' <= name[0] <= 'Z' || 'a' <= name[0] <= 'z' || name[0] == '_')
    && forall i :: 0 <= i < |name| ==>
         'A' <= name[i] <= 'Z' || 'a' <= name[i] <= 'z' || name[i] == '_' || '0' <= name[i] <= '9'
  }

  lemma {:induction false} NameEnds(name: string, tail: string)
    requires forall i :: 0 <= i < |name| ==> NamePart(name[i])
    requires tail == [] || !NamePart(tail[0])
    ensures NameLength(name + tail) == |name|
  {
    if name == [] {
      assert name + tail == tail;
    } else {
      NameEnds(name[1..], tail);
      assert (name + tail)[1..] == name[1..] + tail;
    }
  }

  lemma OneName(expr: string, name: string, other: string)
    requires '(' !in name && '(' !in other && Calls(expr, name) && Calls(expr, other)
    ensures name == other
  {
    assert expr[..|name| + 1][..|name|] == name && expr[..|other| + 1][..|other|] == other;
    assert expr[..|name|] == name && expr[..|other|] == other;
    FirstIndex(expr, '(', |name|);
    FirstIndex(expr, '(', |other|);
  }

  /** Calls of differently named functions start differently. */
  lemma OtherCall(name: string, rest: string, wrapper: string)
    requires '(' !in name && '(' !in wrapper && name != wrapper
    ensures !Calls(name + (['('] + rest), wrapper)
  {
    CallStarts(name + (['('] + rest), name, rest);
    if Calls(name + (['('] + rest), wrapper) {
      OneName(name + (['('] + rest), name, wrapper);
    }
  }

  lemma NoBracketInside(name: string)
    requires Identifier(name)
    ensures '(' !in name && !IsQuote(name[0]) && name[0] != '/'
  {
  }

  lemma CalledNameOf(name: string, rest: string)
    requires Identifier(name)
    ensures CalledName(name + (['('] + rest)) == Some(name)
  {
    NameEnds(name, ['('] + rest);
    assert (name + (['('] + rest))[..|name|] == name;
  }

  lemma NameRead(expr: string, name: string, leaf: Leaf)
    requires expr != [] && !IsQuote(expr[0]) && expr[0] != '/' && CalledName(expr) == Some(name)
    requires !Calls(expr, JOIN) && !Calls(expr, APPEND) && !Calls(expr, SURFACE)
    ensures ReduceCompact(expr, leaf) == Call(name)
  {
  }

  lemma SurfaceRead(expr: string, leaf: Leaf)
    requires Calls(expr, SURFACE) && !Calls(expr, JOIN) && !Calls(expr, APPEND)
    ensures ReduceCompact(expr, leaf) == Answer(None)
  {
    assert expr[0] == 'n';
  }

  /** A call of any function but the three known ones leads to the builder of exactly that
      name. */
  lemma CallReducesToBuilder(expression: string, name: string, rest: string, leaf: Leaf)
    requires RemoveSpace(expression) == name + (['('] + rest)
    requires Identifier(name) && name != JOIN && name != APPEND && name != SURFACE
    ensures Reduce(expression, leaf) == Call(name)
  {
    BlanksDoNotMatter(expression, leaf);
    NoBracketInside(name);
    NotWrapper(name, rest);
    CalledNameOf(name, rest);
    NameRead(name + (['('] + rest), name, leaf);
  }

  lemma NotWrapper(name: string, rest: string)
    requires Identifier(name) && name != JOIN && name != APPEND && name != SURFACE
    ensures var expr := name + (['('] + rest);
            expr[0] == name[0] && !Calls(expr, JOIN) && !Calls(expr, APPEND) && !Calls(expr, SURFACE)
  {
    NoBracketInside(name);
    OtherCall(name, rest, JOIN);
    OtherCall(name, rest, APPEND);
    OtherCall(name, rest, SURFACE);
  }

  /** A text in any of the three quotes is the path. */
  lemma QuotedReducesToText(expression: string, quote: char, body: string, leaf: Leaf)
    requires quote == '"' || quote == '\'' || quote == '`'
    requires RemoveSpace(expression) == [quote] + body + [quote]
    ensures Reduce(expression, leaf) == Answer(leaf(body))
  {
    BlanksDoNotMatter(expression, leaf);
    assert Unquote([quote] + body + [quote]) == body;
  }

  /** A path may stand without quotes, or behind a backquote that is not closed. */
  lemma BarePathReducesToItself(expression: string, leaf: Leaf)
    requires var e := RemoveSpace(expression);
             e != [] && (e[0] == '/' || ("`/" <= e && e[|e| - 1] != '`'))
    ensures Reduce(expression, leaf) == Answer(leaf(RemoveSpace(expression)))
  {
    BlanksDoNotMatter(expression, leaf);
  }

  /** A surface key is no path. */
  lemma SurfaceReducesToNothing(expression: string, rest: string, leaf: Leaf)
    requires RemoveSpace(expression) == SURFACE + (['('] + rest)
    ensures Reduce(expression, leaf) == Answer(None)
  {
    BlanksDoNotMatter(expression, leaf);
    OtherCall(SURFACE, rest, JOIN);
    OtherCall(SURFACE, rest, APPEND);
    CallStarts(RemoveSpace(expression), SURFACE, rest);
    SurfaceRead(RemoveSpace(expression), leaf);
  }

  lemma OpenJoinRead(expr: string, leaf: Leaf)
    requires Calls(expr, JOIN) && CallArguments(expr).None?
    ensures ReduceCompact(expr, leaf) == Answer(None)
  {
    assert expr[0] == 'j';
  }

  lemma OpenAppendRead(expr: string, leaf: Leaf)
    requires Calls(expr, APPEND) && CallArguments(expr).None?
    ensures ReduceCompact(expr, leaf) == Answer(None)
  {
    assert expr[0] == 'a';
    assert !Calls(expr, JOIN);
  }

  lemma OpenArguments(expr: string)
    requires '(' in expr && MatchingBracket(expr, IndexOf(expr, '('), '(', ')') < 0
    ensures CallArguments(expr).None?
  {
  }

  /** A wrapper call whose bracket is never closed leads nowhere. */
  lemma OpenWrapperReducesToNothing(expression: string, name: string, rest: string, leaf: Leaf)
    requires name == JOIN || name == APPEND
    requires RemoveSpace(expression) == name + (['('] + rest)
    requires MatchingBracket(RemoveSpace(expression), |name|, '(', ')') < 0
    ensures Reduce(expression, leaf) == Answer(None)
  {
    var expr := RemoveSpace(expression);
    BlanksDoNotMatter(expression, leaf);
    NoBracketInWrapper(name);
    CallStarts(expr, name, rest);
    OpenArguments(expr);
    if name == JOIN {
      OpenJoinRead(expr, leaf);
    } else {
      OpenAppendRead(expr, leaf);
    }
  }

  lemma NoBracketInWrapper(name: string)
    requires name == JOIN || name == APPEND
    ensures '(' !in name
  {
  }

  /** What an expression can be, blanks aside, if it is to lead anywhere. */
  ghost predicate Readable(e: string) {
    || (|e| >= 2 && IsQuote(e[0]) && e[|e| - 1] == e[0])
    || (e != [] && e[0] == '/') || "`/" <= e
    || exists name, rest :: Identifier(name) && e == name + (['('] + rest)
  }

  lemma {:induction false} NameSpans(s: string)
    ensures forall i :: 0 <= i < NameLength(s) ==> NamePart(s[i])
  {
    if s != [] && NamePart(s[0]) {
      NameSpans(s[1..]);
      assert forall i :: 0 < i < NameLength(s) ==> s[i] == s[1..][i - 1];
    }
  }

  lemma NamedIsReadable(e: string)
    requires CalledName(e).Some?
    ensures Readable(e)
  {
    var n := NameLength(e);
    NameSpans(e);
    assert e == e[..n] + (['('] + e[n + 1..]);
    assert Identifier(e[..n]);
  }

  lemma WrapperNames()
    ensures Identifier(JOIN) && Identifier(APPEND) && Identifier(SURFACE)
  {
  }

  lemma WrapperIsReadable(e: string, name: string)
    requires Calls(e, name) && Identifier(name)
    ensures Readable(e)
  {
    assert e == name + (['('] + e[|name| + 1..]);
  }

  /** Everything else leads nowhere. */
  lemma OthersReduceToNothing(expression: string, leaf: Leaf)
    requires !Readable(RemoveSpace(expression))
    ensures Reduce(expression, leaf) == Answer(None)
  {
    BlanksDoNotMatter(expression, leaf);
    var e := RemoveSpace(expression);
    WrapperNames();
    if CalledName(e).Some? {
      NamedIsReadable(e);
    } else if Calls(e, JOIN) {
      WrapperIsReadable(e, JOIN);
    } else if Calls(e, APPEND) {
      WrapperIsReadable(e, APPEND);
    }
  }

  // ----- whole resolutions -----

  /** A builder call resolves as the builder's body does with the builder marked as seen. */
  lemma BuilderFollowed(expression: string, name: string, rest: string, builders: map<string, string>, leaf: Leaf,
                        seen: set<string>)
    requires RemoveSpace(expression) == name + (['('] + rest)
    requires Identifier(name) && name != JOIN && name != APPEND && name != SURFACE
    ensures Resolved(expression, builders, StepOf(leaf), seen) ==
            if name in builders && name !in seen
            then Resolved(builders[name], builders, StepOf(leaf), seen + {name}) else None
  {
    CallReducesToBuilder(expression, name, rest, leaf);
  }

  lemma JoinResolves(expression: string, args: seq<Argument>, rest: string, builders: map<string, string>, leaf: Leaf,
                     seen: set<string>)
    requires AllPrintable(args)
    requires RemoveSpace(Strip(expression)) == JOIN + ['('] + ArgumentList(args) + [')'] + rest
    ensures Resolved(expression, builders, StepOf(leaf), seen) ==
            if |args| >= 2 then Resolved(Render(args[1].code), builders, StepOf(leaf), seen) else None
  {
    JoinReducesToSecond(expression, args, rest, leaf);
  }

  lemma AppendResolves(expression: string, args: seq<Argument>, rest: string, builders: map<string, string>, leaf: Leaf,
                       seen: set<string>)
    requires AllPrintable(args)
    requires RemoveSpace(Strip(expression)) == APPEND + ['('] + ArgumentList(args) + [')'] + rest
    ensures Resolved(expression, builders, StepOf(leaf), seen) ==
            if |args| >= 1 then Resolved(Render(args[0].code), builders, StepOf(leaf), seen) else None
  {
    AppendReducesToFirst(expression, args, rest, leaf);
  }

  /** A call of a builder that returns a quoted text gives that text's path. */
  lemma QuotedBuilderResolves(expression: string, name: string, rest: string, quote: char, body: string,
                              builders: map<string, string>, leaf: Leaf)
    requires RemoveSpace(expression) == name + (['('] + rest)
    requires Identifier(name) && name != JOIN && name != APPEND && name != SURFACE
    requires quote == '"' || quote == '\'' || quote == '`'
    requires name in builders && RemoveSpace(builders[name]) == [quote] + body + [quote]
    ensures Resolved(expression, builders, StepOf(leaf), {}) == leaf(body)
  {
    BuilderFollowed(expression, name, rest, builders, leaf, {});
    QuotedReducesToText(builders[name], quote, body, leaf);
  }
}
