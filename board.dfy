/** The 3x3 board as a value: its cells, the lines that win, and the
    number of occupied cells. Cells are indexed 0..8 in row-major order. */
module Board {

  /** What a cell holds: nothing, or one of the two glyphs. */
  datatype Marker = Empty | X | O

  /** A token a player can place: a marker that is not Empty. */
  type Token = m: Marker | m != Empty witness X

  /** The other token. */
  function Other(t: Token): (r: Token)
    ensures r != t
  {
    if t == X then O else X
  }

  /** The text a cell contributes when a line is joined into a string. */
  function Glyph(m: Marker): string
  {
    match m
    case Empty => ""
    case X => "X"
    case O => "O"
  }

  /** The cells of a line concatenated into one string, as `line.join('')`. */
  function Join(line: seq<Marker>): string
  {
    if line == [] then "" else Glyph(line[0]) + Join(line[1..])
  }

  /** The engine's test for a won line: the joined cells read "XXX" or "OOO". */
  predicate HasThree(line: seq<Marker>)
  {
    Join(line) == "XXX" || Join(line) == "OOO"
  }

  /** Joining three cells concatenates their glyphs. */
  lemma JoinThree(a: Marker, b: Marker, c: Marker)
    ensures Join([a, b, c]) == Glyph(a) + Glyph(b) + Glyph(c)
  {
    assert [a, b, c][1..] == [b, c];
    assert [b, c][1..] == [c];
    assert [c][1..] == [];
    assert Join([c]) == Glyph(c);
    assert Join([b, c]) == Glyph(b) + Glyph(c);
  }

  /** A three-cell line passes HasThree exactly when its three cells hold the
      same non-empty marker (an empty cell shortens the joined string). */
  lemma HasThreeIff(a: Marker, b: Marker, c: Marker)
    ensures HasThree([a, b, c]) <==> a != Empty && b == a && c == a
  {
    JoinThree(a, b, c);
    var s := Glyph(a) + Glyph(b) + Glyph(c);
    if a == Empty || b == Empty || c == Empty {
      assert |s| < 3;
    } else {
      assert |s| == 3 && s[0] == Glyph(a)[0] && s[1] == Glyph(b)[0] && s[2] == Glyph(c)[0];
    }
  }

  /** The cells whose index satisfies `keep`, in index order, taken from
      position k on: the engine's `board.filter((square, index) => keep(index))`. */
  function FilterFrom(b: seq<Marker>, keep: int -> bool, k: nat): seq<Marker>
    decreases |b| - k
  {
    if k >= |b| then [] else (if keep(k) then [b[k]] else []) + FilterFrom(b, keep, k + 1)
  }

  function Filter(b: seq<Marker>, keep: int -> bool): seq<Marker>
  {
    FilterFrom(b, keep, 0)
  }

  /** Indices that `keep` rejects contribute nothing to the filter. */
  lemma {:induction false} FilterSkip(b: seq<Marker>, keep: int -> bool, k: nat, m: nat)
    requires k <= m <= |b|
    requires forall j :: k <= j < m ==> !keep(j)
    ensures FilterFrom(b, keep, k) == FilterFrom(b, keep, m)
    decreases m - k
  {
    if k < m {
      FilterSkip(b, keep, k + 1, m);
    }
  }

  /** An index that `keep` accepts contributes its cell in front of the rest. */
  lemma FilterPick(b: seq<Marker>, keep: int -> bool, k: nat)
    requires k < |b| && keep(k)
    ensures FilterFrom(b, keep, k) == [b[k]] + FilterFrom(b, keep, k + 1)
  {
  }

  /** A filter that keeps exactly the indices x < y < z of the board yields
      the three cells at those indices, in that order. */
  lemma {:induction false} FilterThree(b: seq<Marker>, keep: int -> bool, x: nat, y: nat, z: nat)
    requires x < y < z < |b|
    requires forall j :: 0 <= j < |b| ==> (keep(j) <==> j == x || j == y || j == z)
    ensures Filter(b, keep) == [b[x], b[y], b[z]]
  {
    var tail := FilterFrom(b, keep, z + 1);
    assert tail == [] by { FilterSkip(b, keep, z + 1, |b|); }
    var fromY := FilterFrom(b, keep, y);
    assert fromY == [b[y], b[z]] by {
      FilterSkip(b, keep, y + 1, z);
      FilterPick(b, keep, z);
      FilterPick(b, keep, y);
    }
    assert Filter(b, keep) == [b[x], b[y], b[z]] by {
      FilterSkip(b, keep, x + 1, y);
      FilterPick(b, keep, x);
      FilterSkip(b, keep, 0, x);
    }
  }

  /** Row r (0..2): cells 3r, 3r+1, 3r+2. */
  function Row(b: seq<Marker>, r: int): seq<Marker>
    requires |b| == 9 && 0 <= r < 3
  {
    [b[3 * r], b[3 * r + 1], b[3 * r + 2]]
  }

  /** Column c (0..2): cells c, c+3, c+6. */
  function Column(b: seq<Marker>, c: int): seq<Marker>
    requires |b| == 9 && 0 <= c < 3
  {
    [b[c], b[c + 3], b[c + 6]]
  }

  /** The i-th line the diagonal check visits: cells i, 4, 8-i. For i = 0 and
      i = 2 these are the two diagonals; for i = 1 it is the middle column. */
  function DiagonalPass(b: seq<Marker>, i: int): seq<Marker>
    requires |b| == 9 && 0 <= i < 3
  {
    [b[i], b[4], b[8 - i]]
  }

  /** Marker m fills cells x, y and z. */
  predicate Three(b: seq<Marker>, m: Marker, x: nat, y: nat, z: nat)
    requires x < |b| && y < |b| && z < |b|
  {
    b[x] == m && b[y] == m && b[z] == m
  }

  /** Marker m fills one of the eight winning lines: three rows, three
      columns, two diagonals. This is the reference definition of a win. */
  predicate Wins(b: seq<Marker>, m: Marker)
    requires |b| == 9
  {
    Three(b, m, 0, 1, 2) || Three(b, m, 3, 4, 5) || Three(b, m, 6, 7, 8) ||
    Three(b, m, 0, 3, 6) || Three(b, m, 1, 4, 7) || Three(b, m, 2, 5, 8) ||
    Three(b, m, 0, 4, 8) || Three(b, m, 2, 4, 6)
  }

  /** Some player's token fills a winning line. */
  predicate HasWin(b: seq<Marker>)
    requires |b| == 9
  {
    Wins(b, X) || Wins(b, O)
  }

  /** Cells x, y and z hold one and the same non-empty marker. */
  predicate Full(b: seq<Marker>, x: nat, y: nat, z: nat)
    requires x < |b| && y < |b| && z < |b|
  {
    b[x] != Empty && b[y] == b[x] && b[z] == b[x]
  }

  /** The column loop finds a line exactly when some column is full. */
  lemma ColumnLoopFinds(b: seq<Marker>)
    requires |b| == 9
    ensures (exists c :: 0 <= c < 3 && HasThree(Column(b, c)))
            <==> Full(b, 0, 3, 6) || Full(b, 1, 4, 7) || Full(b, 2, 5, 8)
  {
    HasThreeIff(b[0], b[3], b[6]);
    HasThreeIff(b[1], b[4], b[7]);
    HasThreeIff(b[2], b[5], b[8]);
    if c :| 0 <= c < 3 && HasThree(Column(b, c)) {
      assert c == 0 || c == 1 || c == 2;
    }
    if Full(b, 0, 3, 6) { assert HasThree(Column(b, 0)); }
    if Full(b, 1, 4, 7) { assert HasThree(Column(b, 1)); }
    if Full(b, 2, 5, 8) { assert HasThree(Column(b, 2)); }
  }

  /** The row loop finds a line exactly when some row is full. */
  lemma RowLoopFinds(b: seq<Marker>)
    requires |b| == 9
    ensures (exists r :: 0 <= r < 3 && HasThree(Row(b, r)))
            <==> Full(b, 0, 1, 2) || Full(b, 3, 4, 5) || Full(b, 6, 7, 8)
  {
    HasThreeIff(b[0], b[1], b[2]);
    HasThreeIff(b[3], b[4], b[5]);
    HasThreeIff(b[6], b[7], b[8]);
    if r :| 0 <= r < 3 && HasThree(Row(b, r)) {
      assert r == 0 || r == 1 || r == 2;
    }
    if Full(b, 0, 1, 2) { assert HasThree(Row(b, 0)); }
    if Full(b, 3, 4, 5) { assert HasThree(Row(b, 1)); }
    if Full(b, 6, 7, 8) { assert HasThree(Row(b, 2)); }
  }

  /** The diagonal loop finds a line exactly when a diagonal or the middle
      column is full: its middle pass (cells 1, 4, 7) is a column. */
  lemma DiagonalLoopFinds(b: seq<Marker>)
    requires |b| == 9
    ensures (exists i :: 0 <= i < 3 && HasThree(DiagonalPass(b, i)))
            <==> Full(b, 0, 4, 8) || Full(b, 1, 4, 7) || Full(b, 2, 4, 6)
  {
    HasThreeIff(b[0], b[4], b[8]);
    HasThreeIff(b[1], b[4], b[7]);
    HasThreeIff(b[2], b[4], b[6]);
    if i :| 0 <= i < 3 && HasThree(DiagonalPass(b, i)) {
      assert i == 0 || i == 1 || i == 2;
    }
    if Full(b, 0, 4, 8) { assert HasThree(DiagonalPass(b, 0)); }
    if Full(b, 1, 4, 7) { assert HasThree(DiagonalPass(b, 1)); }
    if Full(b, 2, 4, 6) { assert HasThree(DiagonalPass(b, 2)); }
  }

  /** The three loops of the engine (columns, rows, and the i, 4, 8-i passes)
      together find a line exactly when the board has a win: the middle pass
      of the diagonal loop re-checks a column, so no extra line is counted
      and none of the eight is missed. */
  lemma LoopChecksFindEveryLine(b: seq<Marker>)
    requires |b| == 9
    ensures ((exists c :: 0 <= c < 3 && HasThree(Column(b, c))) ||
             (exists r :: 0 <= r < 3 && HasThree(Row(b, r))) ||
             (exists i :: 0 <= i < 3 && HasThree(DiagonalPass(b, i))))
            <==> HasWin(b)
  {
    ColumnLoopFinds(b);
    RowLoopFinds(b);
    DiagonalLoopFinds(b);
  }

  /** A move that creates a win on a board without one is won by the marker
      just placed, and only by it. */
  lemma MoverOwnsTheWin(b: seq<Marker>, i: int, t: Token)
    requires |b| == 9 && 0 <= i < 9
    requires !HasWin(b) && HasWin(b[i := t])
    ensures Wins(b[i := t], t) && !Wins(b[i := t], Other(t))
  {
  }

  /** The number of occupied (non-empty) cells. */
  function Occupied(b: seq<Marker>): nat
  {
    if b == [] then 0 else (if b[0] == Empty then 0 else 1) + Occupied(b[1..])
  }

  /** No more cells can be occupied than the board has. */
  lemma {:induction false} OccupiedAtMost(b: seq<Marker>)
    ensures Occupied(b) <= |b|
  {
    if b != [] {
      OccupiedAtMost(b[1..]);
    }
  }

  /** Placing a token on an empty cell occupies exactly one more cell. */
  lemma {:induction false} OccupiedAfterPlace(b: seq<Marker>, i: int, t: Token)
    requires 0 <= i < |b| && b[i] == Empty
    ensures Occupied(b[i := t]) == Occupied(b) + 1
  {
    if i == 0 {
      assert b[i := t][1..] == b[1..];
    } else {
      assert b[i := t][1..] == b[1..][i - 1 := t];
      OccupiedAfterPlace(b[1..], i - 1, t);
    }
  }

  /** A board with every cell empty has nothing occupied. */
  lemma {:induction false} OccupiedNone(b: seq<Marker>)
    requires forall j :: 0 <= j < |b| ==> b[j] == Empty
    ensures Occupied(b) == 0
  {
    if b != [] {
      OccupiedNone(b[1..]);
    }
  }

  /** The count reaches the board size exactly when no cell is empty. */
  lemma {:induction false} OccupiedAllIff(b: seq<Marker>)
    ensures Occupied(b) == |b| <==> forall j :: 0 <= j < |b| ==> b[j] != Empty
  {
    if b != [] {
      OccupiedAllIff(b[1..]);
      OccupiedAtMost(b[1..]);
      if Occupied(b) == |b| {
        forall j | 0 <= j < |b| ensures b[j] != Empty {
          if j > 0 { assert b[j] == b[1..][j - 1]; }
        }
      }
      if forall j :: 0 <= j < |b| ==> b[j] != Empty {
        assert forall j :: 0 <= j < |b[1..]| ==> b[1..][j] == b[j + 1];
      }
    }
  }
}
