/** Printing a call and reading it back: the matcher and the splitter of
    scripts/verify_rust_api_parity.py undo the writing of `name(a1, ..., an)`. */
module CallText {
  import opened Options
  import opened BracketScanner
  import opened ArgumentCuts

  /** Source text by its structure. */
  datatype Code =
    | End
    | Plain(c: char, rest: Code)
    | Escaped(c: char, rest: Code)
    | Quoted(quote: char, body: string, rest: Code)
    | Group(open: char, inner: Code, close: char, rest: Code)
    | Comment(text: string, rest: Code)

  function Render(t: Code): string {
    match t
    case End => []
    case Plain(c, rest) => [c] + Render(rest)
    case Escaped(c, rest) => ['\\', c] + Render(rest)
    case Quoted(quote, body, rest) => [quote] + (body + ([quote] + Render(rest)))
    case Group(open, inner, close, rest) => [open] + (Render(inner) + ([close] + Render(rest)))
    case Comment(text, rest) => text + Render(rest)
  }

  predicate Pair(open: char, close: char) {
    (open == '(' && close == ')') || (open == '[' && close == ']') || (open == '{' && close == '}')
  }

  /** No unescaped `quote` in the text, and no backslash left dangling at its end. */
  predicate StringBody(quote: char, body: string) {
    if body == [] then true
    else if body[0] == '\\' then |body| >= 2 && StringBody(quote, body[2..])
    else body[0] != quote && StringBody(quote, body[1..])
  }

  predicate StartsComment(c: char, next: string) {
    c == '/' && next != [] && (next[0] == '/' || next[0] == '*')
  }

  /** Text that ends with the first closing marker in it. */
  predicate BlockBody(s: string) {
    |s| >= 2 && if s[0] == '*' && s[1] == '/' then |s| == 2 else BlockBody(s[1..])
  }

  predicate OneLine(s: string) {
    forall i :: 0 <= i < |s| ==> s[i] != '\r' && s[i] != '\n'
  }

  predicate StartsLine(s: string) {
    s != [] && (s[0] == '\r' || s[0] == '\n')
  }

  /** A whole comment: a closed block, or up to the end of its line. */
  predicate IsComment(text: string, next: string) {
    && |text| >= 2 && text[0] == '/'
    && if text[1] == '*' then BlockBody(text[2..])
       else text[1] == '/' && OneLine(text[2..]) && StartsLine(next)
  }

  /** Strings are closed, brackets are paired, comments are whole and nothing else outside a
      string starts one, and at the top no comma stands outside brackets, strings and
      comments. */
  predicate WellFormed(t: Code, top: bool) {
    match t
    case End => true
    case Plain(c, rest) =>
      && c != '\\' && !IsQuote(c) && !IsOpen(c) && !IsClose(c) && (top ==> c != ',')
      && !StartsComment(c, Render(rest)) && WellFormed(rest, top)
    case Escaped(_, rest) => WellFormed(rest, top)
    case Quoted(quote, body, rest) => IsQuote(quote) && StringBody(quote, body) && WellFormed(rest, top)
    case Group(open, inner, close, rest) => Pair(open, close) && WellFormed(inner, false) && WellFormed(rest, top)
    case Comment(text, rest) => IsComment(text, Render(rest)) && WellFormed(rest, top)
  }

  /** Text that cannot complete a comment marker begun before it. */
  predicate Follows(post: string) {
    post == [] || (post[0] != '/' && post[0] != '*')
  }

  // ----- the matcher passes over well-formed text -----

  lemma {:induction false} FindPassesString(quote: char, body: string, post: string, at: nat, depth: nat,
                                            open: char, close: char)
    requires IsQuote(quote) && StringBody(quote, body) && depth >= 1
    ensures FindClose(body + ([quote] + post), at, depth, Lex(Some(quote), false), open, close)
         == FindClose(post, at + |body| + 1, depth, PLAIN, open, close)
    decreases |body|
  {
    var s := body + ([quote] + post);
    if body == [] {
      assert s == [quote] + post && s[1..] == post;
    } else if body[0] == '\\' {
      assert s[1..][1..] == body[2..] + ([quote] + post);
      FindPassesString(quote, body[2..], post, at + 2, depth, open, close);
    } else {
      assert s[1..] == body[1..] + ([quote] + post);
      FindPassesString(quote, body[1..], post, at + 1, depth, open, close);
    }
  }

  /** One visible character that starts no comment. */
  lemma FindPassesOne(c: char, post: string, at: nat, depth: nat, open: char, close: char)
    requires Visible(PLAIN, c) && !StartsComment(c, post) && depth >= 1 && depth + Weight(c, open, close) >= 1
    ensures FindClose([c] + post, at, depth, PLAIN, open, close)
         == FindClose(post, at + 1, depth + Weight(c, open, close), PLAIN, open, close)
  {
    var s := [c] + post;
    assert s[1..] == post;
    assert CommentLength(s) == 0;
  }

  lemma FindPassesEscape(c: char, post: string, at: nat, depth: nat, open: char, close: char)
    requires depth >= 1
    ensures FindClose(['\\', c] + post, at, depth, PLAIN, open, close)
         == FindClose(post, at + 2, depth, PLAIN, open, close)
  {
    assert (['\\', c] + post)[1..][1..] == post;
  }

  lemma FindPassesQuoted(quote: char, body: string, post: string, at: nat, depth: nat, open: char, close: char)
    requires IsQuote(quote) && StringBody(quote, body) && depth >= 1
    ensures FindClose([quote] + (body + ([quote] + post)), at, depth, PLAIN, open, close)
         == FindClose(post, at + |body| + 2, depth, PLAIN, open, close)
  {
    assert ([quote] + (body + ([quote] + post)))[1..] == body + ([quote] + post);
    FindPassesString(quote, body, post, at + 1, depth, open, close);
  }

  lemma {:induction false} BlockIsSkipped(s: string, post: string)
    requires BlockBody(s)
    ensures BlockLength(s + post) == |s|
  {
    if !(s[0] == '*' && s[1] == '/') {
      assert (s + post)[1..] == s[1..] + post;
      BlockIsSkipped(s[1..], post);
    }
  }

  lemma {:induction false} LineIsSkipped(s: string, post: string)
    requires OneLine(s) && StartsLine(post)
    ensures LineLength(s + post) == |s|
  {
    if s == [] {
      assert s + post == post;
    } else {
      assert (s + post)[1..] == s[1..] + post;
      LineIsSkipped(s[1..], post);
    }
  }

  lemma FindPassesComment(text: string, post: string, at: nat, depth: nat, open: char, close: char)
    requires IsComment(text, post) && depth >= 1
    ensures FindClose(text + post, at, depth, PLAIN, open, close)
         == FindClose(post, at + |text|, depth, PLAIN, open, close)
  {
    assert (text + post)[2..] == text[2..] + post;
    if text[1] == '*' {
      BlockIsSkipped(text[2..], post);
    } else {
      LineIsSkipped(text[2..], post);
    }
    assert CommentLength(text + post) == |text|;
    assert (text + post)[|text|..] == post;
  }

  /** The first part of the text. */
  function Head(t: Code): string
    requires !t.End?
  {
    match t
    case Plain(c, _) => [c]
    case Escaped(c, _) => ['\\', c]
    case Quoted(quote, body, _) => [quote] + (body + [quote])
    case Group(open, inner, close, _) => [open] + (Render(inner) + [close])
    case Comment(text, _) => text
  }

  lemma Enclosed(open: char, inner: string, close: char, after: string)
    ensures [open] + (inner + [close]) + after == [open] + (inner + ([close] + after))
  {
  }

  lemma RenderHead(t: Code)
    requires !t.End?
    ensures Render(t) == Head(t) + Render(t.rest)
  {
    match t
    case Quoted(quote, body, rest) => Enclosed(quote, body, quote, Render(rest));
    case Group(open, inner, close, rest) => Enclosed(open, Render(inner), close, Render(rest));
    case _ =>
  }

  /** What the first part needs of the text after it. */
  predicate Continues(t: Code, after: string) {
    && (t.Plain? ==> !StartsComment(t.c, after))
    && (t.Comment? ==> IsComment(t.text, after))
  }

  lemma RestContinues(t: Code, top: bool, post: string)
    requires !t.End? && WellFormed(t, top) && Follows(post)
    ensures Continues(t, Render(t.rest) + post)
  {
    assert StartsLine(Render(t.rest)) ==> StartsLine(Render(t.rest) + post);
  }

  lemma HeadPassed(t: Code, top: bool, after: string, at: nat, depth: nat, open: char, close: char)
    requires !t.End? && !t.Group? && WellFormed(t, top) && Continues(t, after) && Pair(open, close) && depth >= 1
    ensures FindClose(Head(t) + after, at, depth, PLAIN, open, close)
         == FindClose(after, at + |Head(t)|, depth, PLAIN, open, close)
  {
    match t
    case Plain(c, _) => FindPassesOne(c, after, at, depth, open, close);
    case Escaped(c, _) => FindPassesEscape(c, after, at, depth, open, close);
    case Quoted(quote, body, _) =>
      Enclosed(quote, body, quote, after);
      FindPassesQuoted(quote, body, after, at, depth, open, close);
    case Comment(text, _) => FindPassesComment(text, after, at, depth, open, close);
  }

  /** Passing over one text and then over another. */
  lemma PassesBoth(head: string, rest: string, whole: string, post: string, at: nat, depth: nat, open: char, close: char)
    requires depth >= 1 && whole == head + rest
    requires FindClose(head + (rest + post), at, depth, PLAIN, open, close)
          == FindClose(rest + post, at + |head|, depth, PLAIN, open, close)
    requires FindClose(rest + post, at + |head|, depth, PLAIN, open, close)
          == FindClose(post, at + |head| + |rest|, depth, PLAIN, open, close)
    ensures FindClose(whole + post, at, depth, PLAIN, open, close)
         == FindClose(post, at + |whole|, depth, PLAIN, open, close)
  {
    assert whole + post == head + (rest + post);
  }

  lemma {:induction false} FindPasses(t: Code, top: bool, post: string, at: nat, depth: nat, open: char, close: char)
    requires WellFormed(t, top) && Follows(post) && Pair(open, close) && depth >= 1
    ensures FindClose(Render(t) + post, at, depth, PLAIN, open, close)
         == FindClose(post, at + |Render(t)|, depth, PLAIN, open, close)
    decreases t, 2
  {
    if t.End? {
      assert [] + post == post;
    } else {
      FindPasses(t.rest, top, post, at + |Head(t)|, depth, open, close);
      FindPassesFrom(t, top, post, at, depth, open, close);
    }
  }

  lemma {:induction false} FindPassesFrom(t: Code, top: bool, post: string, at: nat, depth: nat, open: char, close: char)
    requires !t.End? && WellFormed(t, top) && Follows(post) && Pair(open, close) && depth >= 1
    requires FindClose(Render(t.rest) + post, at + |Head(t)|, depth, PLAIN, open, close)
          == FindClose(post, at + |Head(t)| + |Render(t.rest)|, depth, PLAIN, open, close)
    ensures FindClose(Render(t) + post, at, depth, PLAIN, open, close)
         == FindClose(post, at + |Render(t)|, depth, PLAIN, open, close)
    decreases t, 1
  {
    RenderHead(t);
    FindPassesHead(t, top, post, at, depth, open, close);
    PassesBoth(Head(t), Render(t.rest), Render(t), post, at, depth, open, close);
  }

  lemma {:induction false} FindPassesHead(t: Code, top: bool, post: string, at: nat, depth: nat, open: char, close: char)
    requires !t.End? && WellFormed(t, top) && Follows(post) && Pair(open, close) && depth >= 1
    ensures FindClose(Head(t) + (Render(t.rest) + post), at, depth, PLAIN, open, close)
         == FindClose(Render(t.rest) + post, at + |Head(t)|, depth, PLAIN, open, close)
    decreases t, 0
  {
    if t.Group? {
      FindPassesGroup(t.open, t.inner, t.close, Render(t.rest) + post, at, depth, open, close);
    } else {
      RestContinues(t, top, post);
      HeadPassed(t, top, Render(t.rest) + post, at, depth, open, close);
    }
  }

  lemma {:induction false} FindPassesGroup(o: char, inner: Code, c: char, after: string,
                                           at: nat, depth: nat, open: char, close: char)
    requires Pair(o, c) && WellFormed(inner, false) && Pair(open, close) && depth >= 1
    ensures FindClose([o] + (Render(inner) + [c]) + after, at, depth, PLAIN, open, close)
         == FindClose(after, at + |Render(inner)| + 2, depth, PLAIN, open, close)
    decreases inner, 3
  {
    Enclosed(o, Render(inner), c, after);
    FindPassesOne(o, Render(inner) + ([c] + after), at, depth, open, close);
    var d := depth + Weight(o, open, close);
    FindPasses(inner, false, [c] + after, at + 1, d, open, close);
    FindPassesOne(c, after, at + 1 + |Render(inner)|, d, open, close);
  }

  // ----- the splitter keeps well-formed text in one piece -----

  /** Every comment, read as code at its depth, is uncut and ends where it began. */
  predicate CommentsKept(t: Code, depth: nat) {
    match t
    case End => true
    case Plain(_, rest) => CommentsKept(rest, depth)
    case Escaped(_, rest) => CommentsKept(rest, depth)
    case Quoted(_, _, rest) => CommentsKept(rest, depth)
    case Group(_, inner, _, rest) => CommentsKept(inner, depth + 1) && CommentsKept(rest, depth)
    case Comment(text, rest) => Steady(text, depth) && CommentsKept(rest, depth)
  }

  lemma {:induction false} StringRead(quote: char, body: string, depth: nat)
    requires IsQuote(quote) && StringBody(quote, body)
    ensures Uncut(body + [quote], depth, Lex(Some(quote), false))
    ensures Reading(body + [quote], depth, Lex(Some(quote), false)) == (depth, PLAIN)
    decreases |body|
  {
    var s := body + [quote];
    if body == [] {
      assert s == [quote] && s[1..] == [];
    } else if body[0] == '\\' {
      assert s[1..][1..] == body[2..] + [quote];
      StringRead(quote, body[2..], depth);
    } else {
      assert s[1..] == body[1..] + [quote];
      StringRead(quote, body[1..], depth);
    }
  }

  lemma QuotedSteady(quote: char, body: string, depth: nat)
    requires IsQuote(quote) && StringBody(quote, body)
    ensures Steady([quote] + (body + [quote]), depth)
  {
    StringRead(quote, body, depth);
    assert ([quote] + (body + [quote]))[1..] == body + [quote];
  }

  lemma EscapeSteady(c: char, depth: nat)
    ensures Steady(['\\', c], depth)
  {
    assert ['\\', c][1..] == [c] && [c][1..] == [];
    assert Reading([c], depth, Lex(None, true)) == (depth, PLAIN) && Uncut([c], depth, Lex(None, true));
  }

  lemma PlainSteady(c: char, depth: nat)
    requires Visible(PLAIN, c) && !IsOpen(c) && !IsClose(c) && (depth == 0 ==> c != ',')
    ensures Steady([c], depth)
  {
    assert [c][1..] == [];
  }

  lemma BracketsSteady(open: char, inner: string, close: char, depth: nat)
    requires Pair(open, close) && Steady(inner, depth + 1)
    ensures Steady([open] + (inner + [close]), depth)
  {
    assert ([open] + (inner + [close]))[1..] == inner + [close];
    ReadingConcat(inner, [close], depth + 1, PLAIN);
    assert [close][1..] == [];
  }

  lemma {:induction false} CodeSteady(t: Code, depth: nat)
    requires WellFormed(t, depth == 0) && CommentsKept(t, depth)
    ensures Steady(Render(t), depth)
  {
    if t.End? {
      return;
    }
    match t {
      case Plain(c, _) => PlainSteady(c, depth);
      case Escaped(c, _) => EscapeSteady(c, depth);
      case Quoted(quote, body, _) => QuotedSteady(quote, body, depth);
      case Group(open, inner, close, _) =>
        CodeSteady(inner, depth + 1);
        BracketsSteady(open, Render(inner), close, depth);
      case Comment(_, _) =>
    }
    CodeSteady(t.rest, depth);
    SteadyConcat(Head(t), Render(t.rest), depth);
    RenderHead(t);
  }

  lemma PiecesKeep(t: Code, post: string, depth: nat)
    requires WellFormed(t, depth == 0) && CommentsKept(t, depth)
    ensures Pieces(Render(t) + post, depth, PLAIN) == Prepend(Render(t), Pieces(post, depth, PLAIN))
  {
    CodeSteady(t, depth);
    PiecesUncut(Render(t), post, depth, PLAIN);
  }

  // ----- argument lists -----

  /** An argument with the blanks written around it. */
  datatype Argument = Argument(before: string, code: Code, after: string) {
    function Writing(): Written {
      Written(before, Render(code), after)
    }
  }

  /** Whole code between blanks, comments and all. */
  predicate Whole(a: Argument) {
    Blank(a.before) && Blank(a.after) && WellFormed(a.code, true) && Trimmed(Render(a.code))
  }

  predicate Printable(a: Argument) {
    Whole(a) && CommentsKept(a.code, 0)
  }

  ghost predicate AllWhole(args: seq<Argument>) {
    forall i :: 0 <= i < |args| ==> Whole(args[i])
  }

  ghost predicate AllPrintable(args: seq<Argument>) {
    forall i :: 0 <= i < |args| ==> Printable(args[i])
  }

  function Writings(args: seq<Argument>): seq<Written> {
    seq(|args|, i requires 0 <= i < |args| => args[i].Writing())
  }

  /** The arguments between the brackets of a call. */
  function ArgumentList(args: seq<Argument>): string {
    List(Writings(args))
  }

  function Texts(args: seq<Argument>): seq<string> {
    seq(|args|, i requires 0 <= i < |args| => Render(args[i].code))
  }

  lemma TextsOfWritings(args: seq<Argument>)
    ensures ArgumentCuts.Texts(Writings(args)) == Texts(args)
  {
  }

  // ----- an argument list as code -----

  function Cat(t: Code, u: Code): Code {
    match t
    case End => u
    case Plain(c, rest) => Plain(c, Cat(rest, u))
    case Escaped(c, rest) => Escaped(c, Cat(rest, u))
    case Quoted(quote, body, rest) => Quoted(quote, body, Cat(rest, u))
    case Group(open, inner, close, rest) => Group(open, inner, close, Cat(rest, u))
    case Comment(text, rest) => Comment(text, Cat(rest, u))
  }

  lemma {:induction false} CatRender(t: Code, u: Code)
    ensures Render(Cat(t, u)) == Render(t) + Render(u)
  {
    if !t.End? {
      CatRender(t.rest, u);
      RenderHead(t);
      RenderHead(Cat(t, u));
    }
  }

  lemma {:induction false} CatWellFormed(t: Code, u: Code, top: bool)
    requires WellFormed(t, top) && WellFormed(u, top) && Follows(Render(u))
    ensures WellFormed(Cat(t, u), top)
  {
    if !t.End? {
      CatWellFormed(t.rest, u, top);
      CatRender(t.rest, u);
    }
  }

  lemma {:induction false} WellFormedBelow(t: Code)
    requires WellFormed(t, true)
    ensures WellFormed(t, false)
  {
    if !t.End? {
      WellFormedBelow(t.rest);
    }
  }

  function BlankCode(blank: string): Code {
    if blank == [] then End else Plain(blank[0], BlankCode(blank[1..]))
  }

  lemma {:induction false} BlankRender(blank: string)
    requires Blank(blank)
    ensures Render(BlankCode(blank)) == blank && WellFormed(BlankCode(blank), false)
  {
    if blank != [] {
      BlankRender(blank[1..]);
    }
  }

  function ArgumentCode(a: Argument, rest: Code): Code {
    Cat(BlankCode(a.before), Cat(a.code, Cat(BlankCode(a.after), rest)))
  }

  lemma ArgumentRender(a: Argument, rest: Code)
    requires Whole(a) && WellFormed(rest, false) && Follows(Render(rest))
    ensures Render(ArgumentCode(a, rest)) == a.Writing().Shown() + Render(rest)
    ensures WellFormed(ArgumentCode(a, rest), false)
  {
    var after := Cat(BlankCode(a.after), rest);
    BlankRender(a.before);
    BlankRender(a.after);
    WellFormedBelow(a.code);
    CatRender(BlankCode(a.after), rest);
    CatWellFormed(BlankCode(a.after), rest, false);
    CatRender(a.code, after);
    CatWellFormed(a.code, after, false);
    CatRender(BlankCode(a.before), Cat(a.code, after));
    BlankThen(a.before, Cat(a.code, after));
    ShownThen(a.before, Render(a.code), a.after, Render(rest));
  }

  /** After blanks anything may follow. */
  lemma {:induction false} BlankThen(blank: string, u: Code)
    requires Blank(blank) && WellFormed(u, false)
    ensures WellFormed(Cat(BlankCode(blank), u), false)
  {
    if blank != [] {
      BlankThen(blank[1..], u);
    }
  }

  lemma ShownThen(before: string, text: string, after: string, rest: string)
    ensures before + (text + (after + rest)) == before + (text + after) + rest
  {
  }

  function ListCode(args: seq<Argument>): Code {
    if args == [] then End
    else ArgumentCode(args[0], if |args| == 1 then End else Plain(',', ListCode(args[1..])))
  }

  lemma {:induction false} ListRender(args: seq<Argument>)
    requires AllWhole(args)
    ensures Render(ListCode(args)) == ArgumentList(args) && WellFormed(ListCode(args), false)
  {
    if |args| == 1 {
      ArgumentRender(args[0], End);
      assert Writings(args) == [args[0].Writing()];
      ListOne(args[0].Writing());
    } else if |args| > 1 {
      ListRender(args[1..]);
      ArgumentRender(args[0], Plain(',', ListCode(args[1..])));
      ListMore(Writings(args));
      assert Writings(args)[1..] == Writings(args[1..]);
    }
  }

  lemma FindPassesList(args: seq<Argument>, post: string, at: nat, open: char, close: char)
    requires AllWhole(args) && Follows(post) && Pair(open, close)
    ensures FindClose(ArgumentList(args) + post, at, 1, PLAIN, open, close)
         == FindClose(post, at + |ArgumentList(args)|, 1, PLAIN, open, close)
  {
    ListRender(args);
    FindPasses(ListCode(args), false, post, at, 1, open, close);
  }

  /** Text that the splitter keeps in one piece, wherever it stands. */
  ghost predicate Kept(s: string) {
    forall post :: Pieces(s + post, 0, PLAIN) == Prepend(s, Pieces(post, 0, PLAIN))
  }

  lemma CutAtComma(first: string, more: string)
    ensures Prepend(first, Pieces([','] + more, 0, PLAIN)) == [first] + Pieces(more, 0, PLAIN)
  {
    assert ([','] + more)[1..] == more;
    assert first + [] == first;
  }

  /** Cutting undoes joining. */
  lemma {:induction false} PiecesOfParts(parts: seq<string>)
    requires parts != [] && forall i :: 0 <= i < |parts| ==> Kept(parts[i])
    ensures Pieces(Rejoined(parts), 0, PLAIN) == parts
  {
    assert Kept(parts[0]);
    if |parts| == 1 {
      assert parts[0] + [] == parts[0];
      assert Pieces([], 0, PLAIN) == [[]];
    } else {
      PiecesOfParts(parts[1..]);
      CutAtComma(parts[0], Rejoined(parts[1..]));
    }
  }

  lemma FirstNotComma(t: Code)
    requires WellFormed(t, true) && Render(t) != []
    ensures Render(t)[0] != ','
  {
  }

  lemma WritingsProper(args: seq<Argument>)
    requires AllWhole(args)
    ensures AllProper(Writings(args))
  {
    forall i | 0 <= i < |args|
      ensures Proper(Writings(args)[i])
    {
      FirstNotComma(args[i].code);
    }
  }

  lemma ArgumentSteady(a: Argument)
    requires Printable(a)
    ensures Steady(a.Writing().Shown(), 0)
  {
    BlankSteady(a.before, 0);
    CodeSteady(a.code, 0);
    BlankSteady(a.after, 0);
    SteadyConcat(Render(a.code), a.after, 0);
    SteadyConcat(a.before, Render(a.code) + a.after, 0);
  }

  lemma {:induction false} WritingsClean(args: seq<Argument>)
    requires AllPrintable(args)
    ensures Clean(Writings(args))
  {
    if args != [] {
      ArgumentSteady(args[0]);
      WritingsClean(args[1..]);
      assert Writings(args)[1..] == Writings(args[1..]);
    }
  }

  /** Splitting what was written gives the arguments back, in order and without the blanks. */
  lemma SplitUndoesWriting(args: seq<Argument>)
    requires AllPrintable(args)
    ensures TopLevelArgs(ArgumentList(args)) == Texts(args)
  {
    WritingsProper(args);
    WritingsClean(args);
    SplitsBackIff(Writings(args));
    TextsOfWritings(args);
  }

  /** For code with comments: the matcher always finds the closing bracket, and splitting
      gives the arguments back if and only if each, comments read as code, is read cleanly. */
  lemma ReadingWithComments(name: string, args: seq<Argument>, rest: string, open: char, close: char)
    requires Pair(open, close) && AllWhole(args)
    ensures var text := name + [open] + ArgumentList(args) + [close] + rest;
            var end := |name| + 1 + |ArgumentList(args)|;
            && MatchingBracket(text, |name|, open, close) == end
            && (TopLevelArgs(text[|name| + 1..end]) == Texts(args) <==> Clean(Writings(args)))
  {
    CallSlices(name, open, ArgumentList(args), close, rest);
    MatchFindsEnd(name + [open] + ArgumentList(args) + [close] + rest, |name|, args, rest, open, close);
    WritingsProper(args);
    SplitsBackIff(Writings(args));
    TextsOfWritings(args);
  }

  /** The bracket found for a written call is the one that closes it, whatever stands before
      and after, and splitting the text between the two gives back its arguments. */
  lemma ReadingUndoesWriting(name: string, args: seq<Argument>, rest: string, open: char, close: char)
    requires Pair(open, close) && AllPrintable(args)
    ensures var text := name + [open] + ArgumentList(args) + [close] + rest;
            var end := |name| + 1 + |ArgumentList(args)|;
            && MatchingBracket(text, |name|, open, close) == end
            && TopLevelArgs(text[|name| + 1..end]) == Texts(args)
  {
    ReadingWithComments(name, args, rest, open, close);
    WritingsClean(args);
  }

  lemma MatchFindsEnd(text: string, at: nat, args: seq<Argument>, rest: string, open: char, close: char)
    requires Pair(open, close) && AllWhole(args) && at < |text| && text[at] == open
    requires text[at + 1..] == ArgumentList(args) + ([close] + rest)
    ensures MatchingBracket(text, at, open, close) == at + 1 + |ArgumentList(args)|
  {
    FindPassesList(args, [close] + rest, at + 1, open, close);
    FindClosesHere(close, rest, at + 1 + |ArgumentList(args)|, open);
  }

  lemma FindClosesHere(close: char, rest: string, at: nat, open: char)
    requires Pair(open, close)
    ensures FindClose([close] + rest, at, 1, PLAIN, open, close) == at
  {
  }

  lemma CallSlices(name: string, open: char, list: string, close: char, rest: string)
    ensures var text := name + [open] + list + [close] + rest;
            && text[|name|] == open
            && text[|name| + 1..] == list + ([close] + rest)
            && text[|name| + 1..|name| + 1 + |list|] == list
  {
  }

  lemma CommentIsSkipped()
    ensures MatchingBracket("(/*,*/)", 0, '(', ')') == 6
  {
    assert "(/*,*/)"[1..] == "/*,*/)";
    assert "/*,*/)"[2..] == ",*/)" && ",*/)"[1..] == "*/)";
    assert BlockLength("*/)") == 2 && BlockLength(",*/)") == 3;
    assert "/*,*/)"[5..] == ")";
  }

  lemma MarkersSteady()
    ensures Steady("/*", 0) && Steady("*/", 0)
  {
    PlainSteady('/', 0);
    PlainSteady('*', 0);
    SteadyConcat("/", "*", 0);
    SteadyConcat("*", "/", 0);
    assert "/" + "*" == "/*" && "*" + "/" == "*/";
  }

  lemma CommentIsSplit()
    ensures TopLevelArgs("/*,*/") == ["/*", "*/"]
  {
    var ws := [Written([], "/*", []), Written([], "*/", [])];
    MarkersSteady();
    assert ws[0].Shown() == "/*" && ws[1].Shown() == "*/";
    assert ws[1..] == [ws[1]];
    ListMore(ws);
    ListOne(ws[1]);
    CleanSplits(ws);
    assert List(ws) == "/*,*/";
  }

  /** A comment with a comma breaks the round trip: only the matcher looks past comments, so
      the one comment below is read as two arguments. */
  lemma SplitterReadsComments()
    ensures MatchingBracket("(/*,*/)", 0, '(', ')') == 6
    ensures TopLevelArgs("/*,*/") == ["/*", "*/"]
  {
    CommentIsSkipped();
    CommentIsSplit();
  }

  /** A comment need not be kept for the round trip to hold: the quote below is never closed,
      but nothing follows it. */
  lemma CommentMayHang()
    ensures !Steady("/*'*/", 0) && TopLevelArgs("/*'*/") == ["/*'*/"]
  {
    var s := "/*'*/";
    assert s[1..][1..] == "'*/";
    assert "'*/"[1..] == "*/" && "*/"[1..] == "/" && "/"[1..] == "";
    assert Reading("*/", 0, Lex(Some('\''), false)) == (0, Lex(Some('\''), false));
    assert Reading("'*/", 0, PLAIN) == (0, Lex(Some('\''), false));
    assert Uncut("*/", 0, Lex(Some('\''), false));
    assert Uncut("'*/", 0, PLAIN);
    var w := Written([], s, []);
    assert w.Shown() == s;
    LastArgument(w);
  }
}
