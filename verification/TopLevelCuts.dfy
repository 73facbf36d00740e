/** Where the splitter of scripts/verify_rust_api_parity.py cuts, whatever the text: at the
    commas outside strings and escapes behind which no bracket is open. A closing bracket
    without an opening one before it does not count. */
module TopLevelCuts {
  import opened BracketScanner

  /** Where the splitter stands before the character at `i`. */
  function LexAt(s: string, i: nat): Lex
    requires i <= |s|
  {
    if i == 0 then PLAIN else Advance(LexAt(s, i - 1), s[i - 1])
  }

  function DepthAt(s: string, i: nat): nat
    requires i <= |s|
  {
    if i == 0 then 0 else DepthAfter(s[i - 1], DepthAt(s, i - 1), LexAt(s, i - 1))
  }

  /** One up for an opening bracket, one down for a closing one, outside strings and escapes. */
  function Rise(s: string, i: nat): int
    requires i < |s|
  {
    if !Visible(LexAt(s, i), s[i]) then 0
    else if s[i] == '(' || s[i] == '[' || s[i] == '{' then 1
    else if s[i] == ')' || s[i] == ']' || s[i] == '}' then -1
    else 0
  }

  /** Opening minus closing brackets from `k` up to `i`. */
  function Opened(s: string, k: nat, i: nat): int
    requires k <= i <= |s|
  {
    if k == i then 0 else Opened(s, k, i - 1) + Rise(s, i - 1)
  }

  /** The depth is the largest surplus of opening brackets since any place before. */
  lemma {:induction false} DepthIsLargestSurplus(s: string, i: nat) returns (k: nat)
    requires i <= |s|
    ensures k <= i && DepthAt(s, i) == Opened(s, k, i)
    ensures forall j :: 0 <= j <= i ==> Opened(s, j, i) <= DepthAt(s, i)
  {
    if i == 0 {
      return 0;
    }
    k := DepthIsLargestSurplus(s, i - 1);
    if DepthAt(s, i) != Opened(s, k, i) {
      k := i;
    }
    forall j | 0 <= j <= i
      ensures Opened(s, j, i) <= DepthAt(s, i)
    {
      if j < i {
        assert Opened(s, j, i - 1) <= DepthAt(s, i - 1);
      }
    }
  }

  /** The comma at `i` is outside strings and escapes, and since no place before it have more
      brackets been opened than closed. */
  ghost predicate Cut(s: string, i: int) {
    0 <= i < |s| && s[i] == ',' && Visible(LexAt(s, i), ',') && forall k :: 0 <= k <= i ==> Opened(s, k, i) <= 0
  }

  lemma CutIffDepthZero(s: string, i: nat)
    requires i < |s|
    ensures Cut(s, i) <==> s[i] == ',' && Visible(LexAt(s, i), ',') && DepthAt(s, i) == 0
  {
    var k := DepthIsLargestSurplus(s, i);
  }

  /** The cuts from `from` on, in order. */
  ghost predicate AreCuts(s: string, from: nat, places: seq<nat>) {
    && (forall j, k :: 0 <= j < k < |places| ==> places[j] < places[k])
    && (forall i :: i in places ==> from <= i && Cut(s, i))
    && (forall i :: from <= i && Cut(s, i) ==> i in places)
  }

  predicate Ordered(s: string, start: nat, places: seq<nat>)
    decreases |places|
  {
    if places == [] then start <= |s| else start <= places[0] < |s| && Ordered(s, places[0] + 1, places[1..])
  }

  /** The trimmed stretches of the text between the places. */
  function Between(s: string, start: nat, places: seq<nat>): seq<string>
    requires Ordered(s, start, places)
    decreases |places|
  {
    if places == [] then [Strip(s[start..])]
    else [Strip(s[start..places[0]])] + Between(s, places[0] + 1, places[1..])
  }

  lemma CutsFound(s: string, index: nat, places: seq<nat>)
    requires Cut(s, index) && AreCuts(s, index + 1, places)
    ensures AreCuts(s, index, [index] + places)
  {
    var all := [index] + places;
    forall j, k | 0 <= j < k < |all|
      ensures all[j] < all[k]
    {
      assert all[k] in places;
    }
  }

  lemma CutsSkipped(s: string, index: nat, places: seq<nat>)
    requires !Cut(s, index) && AreCuts(s, index + 1, places)
    ensures AreCuts(s, index, places)
  {
  }

  lemma BetweenFirst(s: string, start: nat, index: nat, places: seq<nat>)
    requires start <= index < |s| && Ordered(s, index + 1, places)
    ensures Ordered(s, start, [index] + places)
    ensures Between(s, start, [index] + places) == [Strip(s[start..index])] + Between(s, index + 1, places)
  {
    assert ([index] + places)[1..] == places;
  }

  lemma RemainingAtCut(s: string, start: nat, index: nat)
    requires start <= index < |s| && Cut(s, index)
    ensures Remaining(s, start, index, DepthAt(s, index), LexAt(s, index))
         == [Strip(s[start..index])] + Remaining(s, index + 1, index + 1, DepthAt(s, index + 1), LexAt(s, index + 1))
  {
    CutIffDepthZero(s, index);
  }

  lemma RemainingNoCut(s: string, start: nat, index: nat)
    requires start <= index < |s| && !Cut(s, index)
    ensures Remaining(s, start, index, DepthAt(s, index), LexAt(s, index))
         == Remaining(s, start, index + 1, DepthAt(s, index + 1), LexAt(s, index + 1))
  {
    CutIffDepthZero(s, index);
  }

  lemma {:induction false} RemainingBetween(s: string, start: nat, index: nat) returns (places: seq<nat>)
    requires start <= index <= |s|
    ensures AreCuts(s, index, places) && Ordered(s, start, places)
    ensures Remaining(s, start, index, DepthAt(s, index), LexAt(s, index)) == Between(s, start, places)
    decreases |s| - index
  {
    if index == |s| {
      places := [];
    } else if Cut(s, index) {
      places := RemainingBetween(s, index + 1, index + 1);
      RemainingAtCut(s, start, index);
      CutsFound(s, index, places);
      BetweenFirst(s, start, index, places);
      places := [index] + places;
    } else {
      places := RemainingBetween(s, start, index + 1);
      RemainingNoCut(s, start, index);
      CutsSkipped(s, index, places);
    }
  }

  /** For every text the arguments are the stretches between its cuts, trimmed, the empty ones
      left out. */
  lemma ArgumentsBetweenCuts(s: string) returns (places: seq<nat>)
    ensures AreCuts(s, 0, places) && Ordered(s, 0, places)
    ensures TopLevelArgs(s) == NonEmpty(Between(s, 0, places))
  {
    places := RemainingBetween(s, 0, 0);
    RemainingAll(s);
  }
}
