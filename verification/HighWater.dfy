/** The bounded, insertion-ordered table of next frame indices, one entry a coil
    (`capture_index_high_water` in app/CapTrue/ImageDataSave.py), and what its keys
    say about the history of coils touched. */
module HighWater {
  import opened CaptureTypes
  import opened Counting

  /** Python's OrderedDict: the keys in order, and the value of each. */
  datatype OrderedMarks = OrderedMarks(keys: seq<Coil>, marks: map<Coil, Mark>) {
    ghost predicate Valid() {
      Distinct(keys) && Elems(keys) == marks.Keys
    }
  }

  const EMPTY_MARKS := OrderedMarks([], map[])

  /** `s` with every `x` taken out. */
  function Without<T(==, !new)>(s: seq<T>, x: T): (r: seq<T>)
    ensures |r| <= |s|
    ensures x !in r
    ensures forall y :: y in r <==> y in s && y != x
  {
    if s == [] then []
    else if s[0] == x then Without(s[1..], x)
    else [s[0]] + Without(s[1..], x)
  }

  /** Drop entries from the old end until at most `size` are left. */
  function Trim(size: Pos, table: OrderedMarks): OrderedMarks
    decreases |table.keys|
  {
    if |table.keys| > size
    then Trim(size, OrderedMarks(table.keys[1..], table.marks - {table.keys[0]}))
    else table
  }

  /** One assignment: the coil moves to the young end, then the old end is trimmed. */
  function Store(size: Pos, table: OrderedMarks, coil: Coil, mark: Mark): OrderedMarks {
    Trim(size, OrderedMarks(Without(table.keys, coil) + [coil], table.marks[coil := mark]))
  }

  /** The same on the keys alone. */
  function Touch(size: Pos, keys: seq<Coil>, coil: Coil): seq<Coil> {
    var moved := Without(keys, coil) + [coil];
    if |moved| > size then moved[|moved| - size..] else moved
  }

  // ----- the table as a function of the history -----

  /** The keys after touching the coils of `history` one after another. */
  function Touched(size: Pos, history: seq<Coil>): seq<Coil> {
    if history == [] then []
    else Touch(size, Touched(size, history[..|history| - 1]), history[|history| - 1])
  }

  /** Position of the last touch of `coil`. */
  function LastTouch(history: seq<Coil>, coil: Coil): (i: nat)
    requires coil in history
    ensures i < |history| && history[i] == coil
    ensures coil !in history[i + 1..]
  {
    var n := |history| - 1;
    if history[n] == coil then n
    else
      assert history == history[..n] + [history[n]];
      var i := LastTouch(history[..n], coil);
      assert history[i + 1..] == history[..n][i + 1..] + [history[n]];
      i
  }

  /** The coils touched after the last touch of `coil`. */
  ghost function TouchedSince(history: seq<Coil>, coil: Coil): set<Coil>
    requires coil in history
  {
    Elems(history[LastTouch(history, coil) + 1..])
  }

  /** `coil` is among the last `size` distinct coils touched. */
  ghost predicate Recent(size: Pos, history: seq<Coil>, coil: Coil) {
    coil in history && |TouchedSince(history, coil)| < size
  }

  lemma TouchedSinceSnoc(history: seq<Coil>, x: Coil, coil: Coil)
    requires coil in history + [x]
    ensures coil == x ==> TouchedSince(history + [x], coil) == {}
    ensures coil != x ==> coil in history
                          && TouchedSince(history + [x], coil) == TouchedSince(history, coil) + {x}
  {
    var h := history + [x];
    assert h[..|h| - 1] == history;
    if coil != x {
      var i := LastTouch(history, coil);
      assert LastTouch(h, coil) == i;
      assert h[i + 1..] == history[i + 1..] + [x];
    }
  }

  lemma {:induction false} WithoutPosition<T(!new)>(s: seq<T>, x: T, p: nat)
    requires Distinct(s) && p < |s| && s[p] == x
    ensures Without(s, x) == s[..p] + s[p + 1..]
  {
    if p == 0 {
      WithoutAbsent(s[1..], x);
      assert s[1..] == s[..0] + s[1..];
    } else {
      assert s[0] != x;
      WithoutPosition(s[1..], x, p - 1);
      assert [s[0]] + (s[1..][..p - 1] + s[1..][p..]) == s[..p] + s[p + 1..];
    }
  }

  lemma {:induction false} WithoutAbsent<T(!new)>(s: seq<T>, x: T)
    requires x !in s
    ensures Without(s, x) == s
  {
    if s != [] {
      WithoutAbsent(s[1..], x);
      assert [s[0]] + s[1..] == s;
    }
  }

  /** The coils touched since the key at `i` are exactly the keys after it. */
  ghost predicate FollowedByTail(history: seq<Coil>, keys: seq<Coil>, i: nat)
    requires i < |keys|
  {
    keys[i] in history && TouchedSince(history, keys[i]) == Elems(keys[i + 1..])
  }

  /** A touched coil that is not a key has since been followed by all of a full table. */
  ghost predicate Displaced(size: Pos, history: seq<Coil>, keys: seq<Coil>, c: Coil) {
    c in history && c !in keys ==> |keys| == size && Elems(keys) <= TouchedSince(history, c)
  }

  ghost predicate KeysFollow(size: Pos, history: seq<Coil>, keys: seq<Coil>) {
    && Distinct(keys)
    && |keys| <= size
    && (forall i :: 0 <= i < |keys| ==> FollowedByTail(history, keys, i))
    && (forall c :: Displaced(size, history, keys, c))
  }

  /** Moving the key at `p` to the young end, one key of the result at a time. */
  lemma MovedKeyFollowed(history: seq<Coil>, keys: seq<Coil>, p: nat, i: nat)
    requires Distinct(keys) && p < |keys| && i < |keys|
    requires FollowedByTail(history, keys, if i < p then i else if i + 1 < |keys| then i + 1 else i)
    ensures FollowedByTail(history + [keys[p]], keys[..p] + keys[p + 1..] + [keys[p]], i)
  {
    var x := keys[p];
    var k := keys[..p] + keys[p + 1..] + [x];
    TouchedSinceSnoc(history, x, k[i]);
    MovedTail(keys, p, i);
  }

  /** The keys after the one at `i`, once the key at `p` has moved to the young end. */
  lemma MovedTail(keys: seq<Coil>, p: nat, i: nat)
    requires p < |keys| && i < |keys|
    ensures var k := keys[..p] + keys[p + 1..] + [keys[p]];
            if i < p then k[i] == keys[i] && Elems(k[i + 1..]) == Elems(keys[i + 1..]) + {keys[p]}
            else if i + 1 < |keys| then k[i] == keys[i + 1] && Elems(k[i + 1..]) == Elems(keys[i + 2..]) + {keys[p]}
            else k[i] == keys[p] && Elems(k[i + 1..]) == {}
  {
    var x := keys[p];
    var k := keys[..p] + keys[p + 1..] + [x];
    if i < p {
      assert keys[i + 1..] == keys[i + 1..p] + [x] + keys[p + 1..];
      assert k[i + 1..] == keys[i + 1..p] + keys[p + 1..] + [x];
    } else if i + 1 < |keys| {
      assert k[i + 1..] == keys[i + 2..] + [x];
    } else {
      assert k[i + 1..] == [];
    }
  }

  lemma TouchCached(size: Pos, history: seq<Coil>, keys: seq<Coil>, p: nat)
    requires KeysFollow(size, history, keys) && p < |keys|
    ensures KeysFollow(size, history + [keys[p]], Touch(size, keys, keys[p]))
  {
    var x := keys[p];
    WithoutPosition(keys, x, p);
    var k := keys[..p] + keys[p + 1..] + [x];
    assert Touch(size, keys, x) == k;
    forall i | 0 <= i < |k|
      ensures FollowedByTail(history + [x], k, i)
    {
      MovedKeyFollowed(history, keys, p, i);
    }
    assert keys == keys[..p] + [x] + keys[p + 1..];
    assert Elems(k) == Elems(keys);
    forall c
      ensures Displaced(size, history + [x], k, c)
    {
      if c in history + [x] {
        TouchedSinceSnoc(history, x, c);
        assert Displaced(size, history, keys, c);
      }
    }
  }

  /** Appending a new key after dropping the `cut` oldest, one key of the result at a time. */
  lemma AppendedKeyFollowed(history: seq<Coil>, keys: seq<Coil>, x: Coil, cut: nat, i: nat)
    requires x !in keys && cut <= |keys| && i <= |keys| - cut
    requires cut + i < |keys| ==> FollowedByTail(history, keys, cut + i)
    ensures FollowedByTail(history + [x], keys[cut..] + [x], i)
  {
    var k := keys[cut..] + [x];
    TouchedSinceSnoc(history, x, k[i]);
    if cut + i < |keys| {
      assert k[i] == keys[cut + i];
      assert k[i + 1..] == keys[cut + i + 1..] + [x];
    } else {
      assert k[i + 1..] == [];
    }
  }

  lemma AppendedDisplaced(size: Pos, history: seq<Coil>, keys: seq<Coil>, x: Coil, c: Coil)
    requires KeysFollow(size, history, keys) && x !in keys
    ensures Displaced(size, history + [x], keys[if |keys| == size then 1 else 0..] + [x], c)
  {
    var cut := if |keys| == size then 1 else 0;
    var k := keys[cut..] + [x];
    if c in history + [x] && c !in k {
      TouchedSinceSnoc(history, x, c);
      assert Displaced(size, history, keys, c);
      if c in keys {
        assert keys == keys[..cut] + keys[cut..];
        assert c == keys[0] && cut == 1;
        assert FollowedByTail(history, keys, 0);
      }
    }
  }

  lemma TouchUncached(size: Pos, history: seq<Coil>, keys: seq<Coil>, x: Coil)
    requires KeysFollow(size, history, keys) && x !in keys
    ensures KeysFollow(size, history + [x], Touch(size, keys, x))
  {
    WithoutAbsent(keys, x);
    var k := Touch(size, keys, x);
    var cut := if |keys| == size then 1 else 0;
    assert k == keys[cut..] + [x];
    forall i | 0 <= i < |k|
      ensures FollowedByTail(history + [x], k, i)
    {
      AppendedKeyFollowed(history, keys, x, cut, i);
    }
    forall c
      ensures Displaced(size, history + [x], k, c)
    {
      AppendedDisplaced(size, history, keys, x, c);
    }
  }

  lemma {:induction false} TouchedFollows(size: Pos, history: seq<Coil>)
    ensures KeysFollow(size, history, Touched(size, history))
  {
    if history == [] {
    } else {
      var before, x := history[..|history| - 1], history[|history| - 1];
      assert history == before + [x];
      TouchedFollows(size, before);
      var keys := Touched(size, before);
      if x in keys {
        var p :| 0 <= p < |keys| && keys[p] == x;
        TouchCached(size, before, keys, p);
      } else {
        TouchUncached(size, before, keys, x);
      }
    }
  }

  /** The keys are exactly the last `size` distinct coils touched, oldest touch first. */
  lemma KeysAreTheRecentCoils(size: Pos, history: seq<Coil>)
    ensures Distinct(Touched(size, history))
    ensures forall c :: c in Touched(size, history) <==> Recent(size, history, c)
    ensures forall i, j :: 0 <= i < j < |Touched(size, history)| ==>
      var k := Touched(size, history);
      k[i] in history && k[j] in history && LastTouch(history, k[i]) < LastTouch(history, k[j])
  {
    var keys := Touched(size, history);
    TouchedFollows(size, history);
    forall c
      ensures c in keys <==> Recent(size, history, c)
    {
      KeyIffRecent(size, history, keys, c);
    }
    forall i, j | 0 <= i < j < |keys|
      ensures keys[i] in history && keys[j] in history && LastTouch(history, keys[i]) < LastTouch(history, keys[j])
    {
      assert FollowedByTail(history, keys, i) && FollowedByTail(history, keys, j);
      assert keys[j] == keys[i + 1..][j - i - 1];
      LaterTouch(history, keys[i], keys[j]);
    }
  }

  lemma KeyIffRecent(size: Pos, history: seq<Coil>, keys: seq<Coil>, c: Coil)
    requires KeysFollow(size, history, keys)
    ensures c in keys <==> Recent(size, history, c)
  {
    if c in keys {
      var i :| 0 <= i < |keys| && keys[i] == c;
      assert FollowedByTail(history, keys, i);
      DistinctCardinality(keys[i + 1..]);
    } else if c in history {
      assert Displaced(size, history, keys, c);
      DistinctCardinality(keys);
      SubsetCardinality(Elems(keys), TouchedSince(history, c));
    }
  }

  lemma LaterTouch(history: seq<Coil>, c: Coil, d: Coil)
    requires c in history && d in history && d in TouchedSince(history, c)
    ensures LastTouch(history, c) < LastTouch(history, d)
  {
    var i, j := LastTouch(history, c), LastTouch(history, d);
    var q :| 0 <= q < |history[i + 1..]| && history[i + 1..][q] == d;
    assert history[i + 1 + q] == d;
    forall m | j < m < |history|
      ensures history[m] != d
    {
      assert history[j + 1..][m - j - 1] == history[m];
    }
  }

  // ----- storing refines touching -----

  lemma {:induction false} TrimKeys(size: Pos, table: OrderedMarks)
    requires table.Valid()
    ensures Trim(size, table).Valid()
    ensures Trim(size, table).keys == if |table.keys| > size then table.keys[|table.keys| - size..] else table.keys
    ensures forall c :: c in Trim(size, table).marks ==> c in table.marks && Trim(size, table).marks[c] == table.marks[c]
    decreases |table.keys|
  {
    if |table.keys| > size {
      var rest := OrderedMarks(table.keys[1..], table.marks - {table.keys[0]});
      assert table.keys == [table.keys[0]] + rest.keys;
      assert Elems(table.keys) == {table.keys[0]} + Elems(rest.keys);
      assert table.keys[0] !in rest.keys;
      TrimKeys(size, rest);
    }
  }

  lemma {:induction false} WithoutDistinct<T(!new)>(s: seq<T>, x: T)
    requires Distinct(s)
    ensures Distinct(Without(s, x))
  {
    if s != [] {
      WithoutDistinct(s[1..], x);
      assert s[0] !in s[1..];
    }
  }

  lemma StoreKeys(size: Pos, table: OrderedMarks, coil: Coil, mark: Mark)
    requires table.Valid()
    ensures Store(size, table, coil, mark).Valid()
    ensures Store(size, table, coil, mark).keys == Touch(size, table.keys, coil)
    ensures forall c :: c in Store(size, table, coil, mark).marks ==>
                          c in table.marks[coil := mark]
                          && Store(size, table, coil, mark).marks[c] == table.marks[coil := mark][c]
  {
    var moved := OrderedMarks(Without(table.keys, coil) + [coil], table.marks[coil := mark]);
    MovedValid(table, coil, mark);
    TrimKeys(size, moved);
  }

  /** Storing moves the coil to the young end with its new mark, keeps the marks of the
      coils that stay, and drops coils exactly as touching does. */
  lemma StoreTouches(size: Pos, table: OrderedMarks, coil: Coil, mark: Mark)
    requires table.Valid()
    ensures var t := Store(size, table, coil, mark);
            && t.Valid()
            && t.keys == Touch(size, table.keys, coil)
            && coil in t.marks && t.marks[coil] == mark
            && (forall c :: c in t.marks && c != coil ==> c in table.marks && t.marks[c] == table.marks[c])
  {
    StoreKeys(size, table, coil, mark);
    var keys := Touch(size, table.keys, coil);
    assert keys[|keys| - 1] == coil;
    assert coil in Elems(keys);
  }

  lemma MovedValid(table: OrderedMarks, coil: Coil, mark: Mark)
    requires table.Valid()
    ensures OrderedMarks(Without(table.keys, coil) + [coil], table.marks[coil := mark]).Valid()
  {
    WithoutDistinct(table.keys, coil);
    var keys := Without(table.keys, coil) + [coil];
    assert Elems(keys) == Elems(Without(table.keys, coil)) + {coil};
    assert Elems(Without(table.keys, coil)) == Elems(table.keys) - {coil};
  }
}
