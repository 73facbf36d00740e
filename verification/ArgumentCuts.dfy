/** Which argument lists come back from the splitter of scripts/verify_rust_api_parity.py:
    exactly those whose arguments the splitter, reading each on its own, neither cuts nor
    (but for the last) leaves in a string, an escape or a bracket. */
module ArgumentCuts {
  import opened BracketScanner

  // ----- reading a stretch of text -----

  /** Where the splitter stands after the text. */
  function Reading(s: string, depth: nat, lex: Lex): (nat, Lex)
    decreases |s|
  {
    if s == [] then (depth, lex) else Reading(s[1..], DepthAfter(s[0], depth, lex), Advance(lex, s[0]))
  }

  predicate CutsAt(c: char, depth: nat, lex: Lex) {
    Visible(lex, c) && c == ',' && depth == 0
  }

  /** The splitter does not cut within the text. */
  predicate Uncut(s: string, depth: nat, lex: Lex)
    decreases |s|
  {
    s == [] || (!CutsAt(s[0], depth, lex) && Uncut(s[1..], DepthAfter(s[0], depth, lex), Advance(lex, s[0])))
  }

  /** Uncut, and the splitter ends where it began. */
  predicate Steady(s: string, depth: nat) {
    Uncut(s, depth, PLAIN) && Reading(s, depth, PLAIN) == (depth, PLAIN)
  }

  lemma {:induction false} ReadingConcat(a: string, b: string, depth: nat, lex: Lex)
    ensures var m := Reading(a, depth, lex);
            && Reading(a + b, depth, lex) == Reading(b, m.0, m.1)
            && (Uncut(a + b, depth, lex) <==> Uncut(a, depth, lex) && Uncut(b, m.0, m.1))
    decreases |a|
  {
    if a == [] {
      assert a + b == b;
    } else {
      assert (a + b)[1..] == a[1..] + b;
      ReadingConcat(a[1..], b, DepthAfter(a[0], depth, lex), Advance(lex, a[0]));
    }
  }

  lemma SteadyConcat(a: string, b: string, depth: nat)
    requires Steady(a, depth) && Steady(b, depth)
    ensures Steady(a + b, depth)
  {
    ReadingConcat(a, b, depth, PLAIN);
  }

  lemma {:induction false} PiecesUncut(s: string, post: string, depth: nat, lex: Lex)
    requires Uncut(s, depth, lex)
    ensures var m := Reading(s, depth, lex); Pieces(s + post, depth, lex) == Prepend(s, Pieces(post, m.0, m.1))
    decreases |s|
  {
    if s == [] {
      assert s + post == post;
      PrependNothing(Pieces(post, depth, lex));
    } else {
      assert (s + post)[1..] == s[1..] + post;
      PiecesUncut(s[1..], post, DepthAfter(s[0], depth, lex), Advance(lex, s[0]));
      var m := Reading(s, depth, lex);
      PrependTwice([s[0]], s[1..], Pieces(post, m.0, m.1));
      assert [s[0]] + s[1..] == s;
    }
  }

  /** Where the splitter first cuts. */
  lemma {:induction false} CutPlace(s: string, depth: nat, lex: Lex) returns (q: nat)
    requires !Uncut(s, depth, lex)
    ensures q < |s| && s[q] == ',' && Uncut(s[..q], depth, lex) && Reading(s[..q], depth, lex) == (0, PLAIN)
    decreases |s|
  {
    if CutsAt(s[0], depth, lex) {
      return 0;
    }
    q := CutPlace(s[1..], DepthAfter(s[0], depth, lex), Advance(lex, s[0]));
    assert s[..q + 1] == [s[0]] + s[1..][..q];
    assert s[..q + 1][1..] == s[1..][..q];
    q := q + 1;
  }

  lemma PiecesAtComma(post: string)
    ensures Pieces([','] + post, 0, PLAIN) == [[]] + Pieces(post, 0, PLAIN)
  {
    assert ([','] + post)[1..] == post;
  }

  /** The first piece of a text that is cut. */
  lemma FirstPieceCut(s: string, post: string) returns (q: nat)
    requires !Uncut(s, 0, PLAIN)
    ensures q < |s| && s[q] == ',' && Pieces(s + post, 0, PLAIN)[0] == s[..q]
  {
    q := CutPlace(s, 0, PLAIN);
    var after := s[q + 1..] + post;
    assert s + post == s[..q] + ([','] + after);
    PiecesUncut(s[..q], [','] + after, 0, PLAIN);
    PiecesAtComma(after);
    assert s[..q] + [] == s[..q];
  }

  /** The first piece of a text after which a comma does not cut. */
  lemma FirstPieceRunsOn(s: string, post: string) returns (z: string)
    requires Uncut(s, 0, PLAIN) && Reading(s, 0, PLAIN) != (0, PLAIN)
    ensures Pieces(s + ([','] + post), 0, PLAIN)[0] == s + ([','] + z)
  {
    var m := Reading(s, 0, PLAIN);
    PiecesUncut(s, [','] + post, 0, PLAIN);
    assert ([','] + post)[1..] == post;
    var pieces := Pieces(post, DepthAfter(',', m.0, m.1), Advance(m.1, ','));
    assert !CutsAt(',', m.0, m.1);
    z := pieces[0];
  }

  // ----- blanks -----

  predicate Blank(s: string) {
    forall i :: 0 <= i < |s| ==> IsSpace(s[i])
  }

  predicate Trimmed(s: string) {
    s != [] && !IsSpace(s[0]) && !IsSpace(s[|s| - 1])
  }

  lemma {:induction false} BlankSteady(blank: string, depth: nat)
    requires Blank(blank)
    ensures Steady(blank, depth)
  {
    if blank != [] {
      BlankSteady(blank[1..], depth);
    }
  }

  lemma {:induction false} StripStartOfBlank(blank: string, s: string)
    requires Blank(blank) && s != [] && !IsSpace(s[0])
    ensures StripStart(blank + s) == s
  {
    if blank == [] {
      assert blank + s == s;
    } else {
      assert (blank + s)[1..] == blank[1..] + s;
      StripStartOfBlank(blank[1..], s);
    }
  }

  lemma {:induction false} StripEndOfBlank(s: string, blank: string)
    requires Blank(blank) && s != [] && !IsSpace(s[|s| - 1])
    ensures StripEnd(s + blank) == s
  {
    if blank == [] {
      assert s + blank == s;
    } else {
      assert (s + blank)[..|s + blank| - 1] == s + blank[..|blank| - 1];
      StripEndOfBlank(s, blank[..|blank| - 1]);
    }
  }

  /** Trimming the end stops at the last character that is no blank. */
  lemma {:induction false} StripEndKeeps(s: string, k: nat)
    requires k < |s| && !IsSpace(s[k])
    ensures |StripEnd(s)| > k
  {
    if IsSpace(s[|s| - 1]) {
      assert s[..|s| - 1][k] == s[k];
      StripEndKeeps(s[..|s| - 1], k);
    }
  }

  /** Trimming takes blanks off both ends and nothing else, until neither end is blank. */
  lemma {:induction false} StripTrims(s: string) returns (front: string, back: string)
    ensures Blank(front) && Blank(back) && s == front + Strip(s) + back
    ensures Strip(s) == [] || Trimmed(Strip(s))
    decreases |s|
  {
    if s == [] {
      return [], [];
    }
    if IsSpace(s[0]) {
      front, back := StripTrims(s[1..]);
      front := [s[0]] + front;
      return;
    }
    front := [];
    back := EndTrims(s);
    StripEndKeeps(s, 0);
  }

  lemma {:induction false} EndTrims(s: string) returns (back: string)
    ensures Blank(back) && s == StripEnd(s) + back
    ensures StripEnd(s) == [] || !IsSpace(StripEnd(s)[|StripEnd(s)| - 1])
  {
    if s != [] && IsSpace(s[|s| - 1]) {
      back := EndTrims(s[..|s| - 1]);
      back := back + [s[|s| - 1]];
      return;
    }
    back := [];
  }

  // ----- argument lists -----

  /** An argument with the blanks written around it. */
  datatype Written = Written(before: string, text: string, after: string) {
    function Shown(): string {
      before + (text + after)
    }
  }

  predicate Proper(w: Written) {
    Blank(w.before) && Blank(w.after) && Trimmed(w.text) && w.text[0] != ','
  }

  ghost predicate AllProper(ws: seq<Written>) {
    forall i :: 0 <= i < |ws| ==> Proper(ws[i])
  }

  function ShownAll(ws: seq<Written>): seq<string> {
    seq(|ws|, i requires 0 <= i < |ws| => ws[i].Shown())
  }

  /** The arguments between the brackets of a call. */
  function List(ws: seq<Written>): string {
    if ws == [] then [] else Rejoined(ShownAll(ws))
  }

  function Texts(ws: seq<Written>): seq<string> {
    seq(|ws|, i requires 0 <= i < |ws| => ws[i].text)
  }

  /** Each argument, read on its own, is uncut, and all but the last end where they began. */
  predicate Clean(ws: seq<Written>) {
    ws == []
    || (Uncut(ws[0].Shown(), 0, PLAIN)
        && (|ws| == 1 || (Reading(ws[0].Shown(), 0, PLAIN) == (0, PLAIN) && Clean(ws[1..]))))
  }

  lemma StripShown(w: Written)
    requires Proper(w)
    ensures Strip(w.Shown()) == w.text
  {
    StripStartOfBlank(w.before, w.text + w.after);
    StripEndOfBlank(w.text, w.after);
  }

  lemma ListMore(ws: seq<Written>)
    requires |ws| > 1
    ensures List(ws) == ws[0].Shown() + ([','] + List(ws[1..]))
    ensures Texts(ws) == [ws[0].text] + Texts(ws[1..])
  {
    assert ShownAll(ws)[1..] == ShownAll(ws[1..]);
  }

  lemma ListOne(w: Written)
    ensures List([w]) == w.Shown() && Texts([w]) == [w.text]
  {
  }

  /** What the first piece, if it is not blank, contributes. */
  lemma FirstArgument(pieces: seq<string>)
    requires pieces != []
    ensures NonEmpty(StripAll(pieces))
         == (if Strip(pieces[0]) == [] then [] else [Strip(pieces[0])]) + NonEmpty(StripAll(pieces[1..]))
  {
    assert StripAll(pieces)[1..] == StripAll(pieces[1..]);
  }

  /** An argument that is not cut, followed by a comma that cuts. */
  lemma ArgumentThenComma(w: Written, post: string)
    requires Proper(w) && Steady(w.Shown(), 0)
    ensures TopLevelArgs(w.Shown() + ([','] + post)) == [w.text] + TopLevelArgs(post)
  {
    var s, pieces := w.Shown(), Pieces(post, 0, PLAIN);
    PiecesUncut(s, [','] + post, 0, PLAIN);
    PiecesAtComma(post);
    assert s + [] == s;
    assert Prepend(s, [[]] + pieces) == [s] + pieces;
    StripShown(w);
    FirstArgument([s] + pieces);
  }

  lemma LastArgument(w: Written)
    requires Proper(w) && Uncut(w.Shown(), 0, PLAIN)
    ensures TopLevelArgs(w.Shown()) == [w.text]
  {
    var s := w.Shown();
    PiecesUncut(s, [], 0, PLAIN);
    assert s + [] == s;
    assert Prepend(s, [[]]) == [s];
    StripShown(w);
    FirstArgument([s]);
    assert [s][1..] == [] && StripAll([]) == [];
  }

  /** A cut within the argument leaves a shorter first argument. */
  lemma CutShorter(w: Written, post: string)
    requires Proper(w) && !Uncut(w.Shown(), 0, PLAIN)
    ensures TopLevelArgs(w.Shown() + post) != [] && |TopLevelArgs(w.Shown() + post)[0]| < |w.text|
  {
    var s := w.Shown();
    var q := FirstPieceCut(s, post);
    var m := q - |w.before|;
    CutInText(w, q);
    assert s[..q] == w.before + w.text[..m];
    StripStartOfBlank(w.before, w.text[..m]);
    StripEndKeeps(w.text[..m], 0);
    FirstArgument(Pieces(s + post, 0, PLAIN));
  }

  /** The cut is neither in the blanks nor at the first character. */
  lemma CutInText(w: Written, q: nat)
    requires Proper(w) && q < |w.Shown()| && w.Shown()[q] == ','
    ensures |w.before| < q < |w.before| + |w.text|
  {
    var s := w.Shown();
    assert forall i :: 0 <= i < |w.before| ==> s[i] == w.before[i] && s[i] != ',';
    assert forall i :: |w.before| + |w.text| <= i < |s| ==>
      s[i] == w.after[i - |w.before| - |w.text|] && s[i] != ',';
    assert s[|w.before|] == w.text[0];
  }

  /** A comma that does not cut leaves a longer first argument. */
  lemma RunsOnLonger(w: Written, post: string)
    requires Proper(w) && Uncut(w.Shown(), 0, PLAIN) && Reading(w.Shown(), 0, PLAIN) != (0, PLAIN)
    ensures var r := TopLevelArgs(w.Shown() + ([','] + post)); r != [] && |r[0]| > |w.text|
  {
    var z := FirstPieceRunsOn(w.Shown(), post);
    var y := w.text + (w.after + ([','] + z));
    assert w.Shown() + ([','] + z) == w.before + y;
    StripStartOfBlank(w.before, y);
    assert y[|w.text| + |w.after|] == ',';
    StripEndKeeps(y, |w.text| + |w.after|);
    FirstArgument(Pieces(w.Shown() + ([','] + post), 0, PLAIN));
  }

  lemma {:induction false} CleanSplits(ws: seq<Written>)
    requires AllProper(ws) && Clean(ws)
    ensures TopLevelArgs(List(ws)) == Texts(ws)
  {
    if ws == [] {
      NothingSplits();
    } else if |ws| == 1 {
      ListOne(ws[0]);
      assert ws == [ws[0]];
      LastArgument(ws[0]);
    } else {
      ListMore(ws);
      ArgumentThenComma(ws[0], List(ws[1..]));
      CleanSplits(ws[1..]);
    }
  }

  lemma NothingSplits()
    ensures TopLevelArgs([]) == []
  {
    assert StripAll([[]]) == [[]];
    assert NonEmpty([[]]) == NonEmpty([[]][1..]);
  }

  lemma {:induction false} SplitsClean(ws: seq<Written>)
    requires AllProper(ws) && TopLevelArgs(List(ws)) == Texts(ws)
    ensures Clean(ws)
  {
    if ws == [] {
      return;
    }
    HeadUncut(ws);
    if |ws| > 1 {
      HeadSteady(ws);
      var w, more := ws[0], ws[1..];
      ListMore(ws);
      ArgumentThenComma(w, List(more));
      assert ([w.text] + TopLevelArgs(List(more)))[1..] == ([w.text] + Texts(more))[1..];
      SplitsClean(more);
    }
  }

  lemma HeadUncut(ws: seq<Written>)
    requires AllProper(ws) && ws != [] && TopLevelArgs(List(ws)) == Texts(ws)
    ensures Uncut(ws[0].Shown(), 0, PLAIN)
  {
    var w := ws[0];
    if !Uncut(w.Shown(), 0, PLAIN) {
      if |ws| > 1 {
        ListMore(ws);
        CutShorter(w, [','] + List(ws[1..]));
      } else {
        ListOne(w);
        assert ws == [w] && w.Shown() + [] == w.Shown();
        CutShorter(w, []);
      }
      assert false;
    }
  }

  lemma HeadSteady(ws: seq<Written>)
    requires AllProper(ws) && |ws| > 1 && TopLevelArgs(List(ws)) == Texts(ws)
    requires Uncut(ws[0].Shown(), 0, PLAIN)
    ensures Reading(ws[0].Shown(), 0, PLAIN) == (0, PLAIN)
  {
    if Reading(ws[0].Shown(), 0, PLAIN) != (0, PLAIN) {
      ListMore(ws);
      RunsOnLonger(ws[0], List(ws[1..]));
      assert false;
    }
  }

  /** Whatever the arguments hold, splitting the written list gives them back, trimmed and in
      order, if and only if each of them is read cleanly. */
  lemma SplitsBackIff(ws: seq<Written>)
    requires AllProper(ws)
    ensures TopLevelArgs(List(ws)) == Texts(ws) <==> Clean(ws)
  {
    if Clean(ws) {
      CleanSplits(ws);
    }
    if TopLevelArgs(List(ws)) == Texts(ws) {
      SplitsClean(ws);
    }
  }
}
