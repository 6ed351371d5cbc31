/**
 * The tetromino catalogue: seven pieces, each with its pre-baked 4x4
 * rotation masks, a fixed colour and a fixed spawn pose.
 */
module Sprites {
  import opened Bytes

  /** A terminal colour given by its red, green and blue bytes. */
  datatype Color = Rgb(r: byte, g: byte, b: byte)

  /**
   * One rotation state: four rows of four entries, read as
   * `mask[row][column]`; an entry of 1 is a filled cell.
   */
  type Mask = seq<seq<byte>>

  /**
   * A piece: the grid position of its masks' top-left corner, its colour,
   * its rotation states and the index of the current one.
   */
  datatype Piece = Piece(x: int, y: int, color: Color, shapes: seq<Mask>, orientation: int)

  /** The play area the game creates: 10 columns by 20 rows. */
  const PlayWidth: int := 10
  const PlayHeight: int := 20

  /** The seven tetromino kinds, in the order the catalogue lists them. */
  datatype Kind = J | L | O | I | S | Z | T

  const Order: seq<Kind> := [J, L, O, I, S, Z, T]

  /** The rotation states of each kind, in the order they are pushed. */
  function Shapes(k: Kind): seq<Mask>
  {
    match k
    case J => [[[0, 0, 0, 0], [1, 1, 1, 0], [1, 0, 0, 0], [0, 0, 0, 0]],
               [[1, 0, 0, 0], [1, 0, 0, 0], [1, 1, 0, 0], [0, 0, 0, 0]],
               [[0, 0, 1, 0], [1, 1, 1, 0], [0, 0, 0, 0], [0, 0, 0, 0]],
               [[1, 1, 0, 0], [0, 1, 0, 0], [0, 1, 0, 0], [0, 0, 0, 0]]]
    case L => [[[1, 0, 0, 0], [1, 1, 1, 0], [0, 0, 0, 0], [0, 0, 0, 0]],
               [[0, 1, 0, 0], [0, 1, 0, 0], [1, 1, 0, 0], [0, 0, 0, 0]],
               [[0, 0, 0, 0], [1, 1, 1, 0], [0, 0, 1, 0], [0, 0, 0, 0]],
               [[0, 1, 1, 0], [0, 1, 0, 0], [0, 1, 0, 0], [0, 0, 0, 0]]]
    case O => [[[1, 1, 0, 0], [1, 1, 0, 0], [0, 0, 0, 0], [0, 0, 0, 0]]]
    case I => [[[0, 0, 0, 0], [1, 1, 1, 1], [0, 0, 0, 0], [0, 0, 0, 0]],
               [[0, 1, 0, 0], [0, 1, 0, 0], [0, 1, 0, 0], [0, 1, 0, 0]]]
    case S => [[[0, 1, 0, 0], [1, 1, 0, 0], [1, 0, 0, 0], [0, 0, 0, 0]],
               [[1, 1, 0, 0], [0, 1, 1, 0], [0, 0, 0, 0], [0, 0, 0, 0]]]
    case Z => [[[1, 0, 0, 0], [1, 1, 0, 0], [0, 1, 0, 0], [0, 0, 0, 0]],
               [[0, 1, 1, 0], [1, 1, 0, 0], [0, 0, 0, 0], [0, 0, 0, 0]]]
    case T => [[[1, 0, 0, 0], [1, 1, 0, 0], [1, 0, 0, 0], [0, 0, 0, 0]],
               [[0, 1, 0, 0], [1, 1, 1, 0], [0, 0, 0, 0], [0, 0, 0, 0]],
               [[0, 1, 0, 0], [1, 1, 0, 0], [0, 1, 0, 0], [0, 0, 0, 0]],
               [[1, 1, 1, 0], [0, 1, 0, 0], [0, 0, 0, 0], [0, 0, 0, 0]]]
  }

  /** The fixed colour of each kind. */
  function ColorOf(k: Kind): Color
  {
    match k
    case J => Rgb(205, 152, 211)
    case L => Rgb(115, 196, 144)
    case O => Rgb(221, 77, 182)
    case I => Rgb(23, 21, 41)
    case S => Rgb(82, 155, 129)
    case Z => Rgb(136, 73, 128)
    case T => Rgb(255, 167, 235)
  }

  /** A piece of kind `k` at the spawn pose: x = 4, y = 0, orientation 0. */
  function Spawn(k: Kind): Piece
  {
    Piece(4, 0, ColorOf(k), Shapes(k), 0)
  }

  /** The catalogue `create_pieces` returns. */
  function Catalogue(): seq<Piece>
  {
    seq(|Order|, i requires 0 <= i < |Order| => Spawn(Order[i]))
  }

  // ---------------------------------------------------------------- masks

  /** A 4x4 mask whose every entry is 0 or 1. */
  predicate IsMask(m: Mask)
  {
    |m| == 4 &&
    forall r :: 0 <= r < 4 ==>
      |m[r]| == 4 && forall c :: 0 <= c < 4 ==> m[r][c] == 0 || m[r][c] == 1
  }

  /** Cell (`r`, `c`) of `m` is filled. */
  predicate Occupies(m: Mask, r: int, c: int)
  {
    0 <= r < |m| && 0 <= c < |m[r]| && m[r][c] == 1
  }

  /** The filled cells of `m`, as (row, column) pairs. */
  ghost function Cells(m: Mask): set<(int, int)>
  {
    set r, c | 0 <= r < |m| && 0 <= c < |m[r]| && m[r][c] == 1 :: (r, c)
  }

  /** A filled entry counts as 1, any other as 0. */
  function Bit(e: byte): nat
  {
    if e == 1 then 1 else 0
  }

  /** The number of filled entries of a row, counted one entry at a time. */
  function RowFilled(row: seq<byte>): nat
  {
    if row == [] then 0
    else RowFilled(row[..|row| - 1]) + Bit(row[|row| - 1])
  }

  /** The number of filled entries of a mask, counted row by row. */
  function Filled(m: Mask): nat
  {
    if m == [] then 0 else Filled(m[..|m| - 1]) + RowFilled(m[|m| - 1])
  }

  /** The filled cells of row `r` of a mask whose row `r` is `row`. */
  ghost function RowCells(row: seq<byte>, r: int): set<(int, int)>
  {
    set c | 0 <= c < |row| && row[c] == 1 :: (r, c)
  }

  lemma {:induction false} RowFilledIsRowCells(row: seq<byte>, r: int)
    ensures |RowCells(row, r)| == RowFilled(row)
  {
    if row != [] {
      var n := |row| - 1;
      var front := row[..n];
      RowFilledIsRowCells(front, r);
      var last := if row[n] == 1 then {(r, n)} else {};
      assert RowCells(row, r) == RowCells(front, r) + last;
      assert (r, n) !in RowCells(front, r);
    }
  }

  /** Counting row by row gives exactly the number of filled cells. */
  lemma {:induction false} FilledIsCellCount(m: Mask)
    ensures |Cells(m)| == Filled(m)
  {
    if m != [] {
      var n := |m| - 1;
      var front := m[..n];
      FilledIsCellCount(front);
      RowFilledIsRowCells(m[n], n);
      assert Cells(m) == Cells(front) + RowCells(m[n], n);
      assert Cells(front) * RowCells(m[n], n) == {};
    }
  }

  // ------------------------------------------------------------ catalogue

  /** A tetromino: every rotation state is a 0/1 mask with four filled cells. */
  ghost predicate IsTetromino(p: Piece)
  {
    |p.shapes| > 0 &&
    forall k :: 0 <= k < |p.shapes| ==> IsMask(p.shapes[k]) && |Cells(p.shapes[k])| == 4
  }

  /** Seven pieces, in the order J, L, O, I, S, Z, T. */
  lemma CatalogueOrder()
    ensures |Catalogue()| == 7
    ensures Catalogue() == [Spawn(J), Spawn(L), Spawn(O), Spawn(I), Spawn(S), Spawn(Z), Spawn(T)]
  {
  }

  /** The number of rotation states of each piece. */
  lemma RotationCounts()
    ensures |Catalogue()| == 7
    ensures |Catalogue()[0].shapes| == 4 && |Catalogue()[1].shapes| == 4
    ensures |Catalogue()[2].shapes| == 1 && |Catalogue()[3].shapes| == 2
    ensures |Catalogue()[4].shapes| == 2 && |Catalogue()[5].shapes| == 2
    ensures |Catalogue()[6].shapes| == 4
  {
  }

  /** Unfolds the count of a four-entry row. */
  lemma RowFilledOfFour(row: seq<byte>)
    requires |row| == 4
    ensures RowFilled(row) == Bit(row[0]) + Bit(row[1]) + Bit(row[2]) + Bit(row[3])
  {
    assert row[..3][..2] == row[..2] && row[..2][..1] == row[..1] && row[..1][..0] == [];
    assert RowFilled(row[..1]) == Bit(row[0]);
    assert RowFilled(row[..2]) == RowFilled(row[..1]) + Bit(row[1]);
    assert RowFilled(row[..3]) == RowFilled(row[..2]) + Bit(row[2]);
  }

  /** Unfolds the count of a four-row mask. */
  lemma FilledOfFour(m: Mask)
    requires |m| == 4
    ensures Filled(m) == RowFilled(m[0]) + RowFilled(m[1]) + RowFilled(m[2]) + RowFilled(m[3])
  {
    assert m[..3][..2] == m[..2] && m[..2][..1] == m[..1] && m[..1][..0] == [];
    assert Filled(m[..1]) == RowFilled(m[0]);
    assert Filled(m[..2]) == Filled(m[..1]) + RowFilled(m[1]);
    assert Filled(m[..3]) == Filled(m[..2]) + RowFilled(m[2]);
  }

  /** The count of a 4x4 mask, entry by entry. */
  lemma MaskCount(m: Mask)
    requires |m| == 4 && |m[0]| == 4 && |m[1]| == 4 && |m[2]| == 4 && |m[3]| == 4
    ensures Filled(m) ==
      Bit(m[0][0]) + Bit(m[0][1]) + Bit(m[0][2]) + Bit(m[0][3]) +
      Bit(m[1][0]) + Bit(m[1][1]) + Bit(m[1][2]) + Bit(m[1][3]) +
      Bit(m[2][0]) + Bit(m[2][1]) + Bit(m[2][2]) + Bit(m[2][3]) +
      Bit(m[3][0]) + Bit(m[3][1]) + Bit(m[3][2]) + Bit(m[3][3])
  {
    FilledOfFour(m);
    RowFilledOfFour(m[0]);
    RowFilledOfFour(m[1]);
    RowFilledOfFour(m[2]);
    RowFilledOfFour(m[3]);
  }

  /** Every rotation state of a kind is a 4x4 mask of 0/1 entries. */
  lemma ShapeIsMask(k: Kind, i: int)
    requires 0 <= i < |Shapes(k)|
    ensures IsMask(Shapes(k)[i])
  {
  }

  /** Every rotation state of a kind has four filled entries. */
  lemma ShapeFilled(k: Kind, i: int)
    requires 0 <= i < |Shapes(k)|
    ensures Filled(Shapes(k)[i]) == 4
  {
    MaskCount(Shapes(k)[i]);
  }

  /** Every rotation state of a kind is a 0/1 mask with exactly four filled cells. */
  lemma ShapeIsTetromino(k: Kind, i: int)
    requires 0 <= i < |Shapes(k)|
    ensures IsMask(Shapes(k)[i]) && |Cells(Shapes(k)[i])| == 4
  {
    ShapeIsMask(k, i);
    ShapeFilled(k, i);
    FilledIsCellCount(Shapes(k)[i]);
  }

  /** Every piece of the catalogue is a tetromino. */
  lemma CatalogueTetrominoes()
    ensures forall n :: 0 <= n < |Catalogue()| ==> IsTetromino(Catalogue()[n])
  {
    forall n, i | 0 <= n < |Catalogue()| && 0 <= i < |Catalogue()[n].shapes|
      ensures IsMask(Catalogue()[n].shapes[i]) && |Cells(Catalogue()[n].shapes[i])| == 4
    {
      ShapeIsTetromino(Order[n], i);
    }
  }

  /** Every piece starts at x = 4, y = 0 with orientation 0, a valid index. */
  lemma SpawnPose()
    ensures forall n :: 0 <= n < |Catalogue()| ==>
      var p := Catalogue()[n];
      p.x == 4 && p.y == 0 && p.orientation == 0 && 0 <= p.orientation < |p.shapes|
  {
  }

  /** The seven colours are pairwise distinct. */
  lemma DistinctColours()
    ensures forall n, m :: 0 <= n < m < |Catalogue()| ==> Catalogue()[n].color != Catalogue()[m].color
  {
  }

  /**
   * At the spawn pose, every filled cell of orientation 0 lies in columns
   * 4..7 and rows 0..2, hence inside the play area.
   */
  lemma SpawnFits(n: int, r: int, c: int)
    requires 0 <= n < |Catalogue()|
    requires Occupies(Catalogue()[n].shapes[Catalogue()[n].orientation], r, c)
    ensures 4 <= Catalogue()[n].x + c <= 7
    ensures 0 <= Catalogue()[n].y + r <= 2
    ensures 0 <= Catalogue()[n].x + c < PlayWidth && 0 <= Catalogue()[n].y + r < PlayHeight
  {
  }

  // -------------------------------------------------------- create_pieces

  /**
   * `create_pieces`: builds each piece's rotation list by pushing its masks
   * one at a time, then pushes the piece onto the catalogue.
   */
  method CreatePieces() returns (pieces: seq<Piece>)
    ensures pieces == Catalogue()
  {
    pieces := [];

    // J tetromino
    var shapes: seq<Mask> := [];
    var shape: Mask := [[0, 0, 0, 0], [1, 1, 1, 0], [1, 0, 0, 0], [0, 0, 0, 0]];
    shapes := shapes + [shape];
    shape := [[1, 0, 0, 0], [1, 0, 0, 0], [1, 1, 0, 0], [0, 0, 0, 0]];
    shapes := shapes + [shape];
    shape := [[0, 0, 1, 0], [1, 1, 1, 0], [0, 0, 0, 0], [0, 0, 0, 0]];
    shapes := shapes + [shape];
    shape := [[1, 1, 0, 0], [0, 1, 0, 0], [0, 1, 0, 0], [0, 0, 0, 0]];
    shapes := shapes + [shape];
    var piece := Piece(x := 4, y := 0, color := Rgb(205, 152, 211), shapes := shapes, orientation := 0);
    assert piece == Spawn(J);
    pieces := pieces + [piece];

    // L tetromino
    shapes := [];
    shape := [[1, 0, 0, 0], [1, 1, 1, 0], [0, 0, 0, 0], [0, 0, 0, 0]];
    shapes := shapes + [shape];
    shape := [[0, 1, 0, 0], [0, 1, 0, 0], [1, 1, 0, 0], [0, 0, 0, 0]];
    shapes := shapes + [shape];
    shape := [[0, 0, 0, 0], [1, 1, 1, 0], [0, 0, 1, 0], [0, 0, 0, 0]];
    shapes := shapes + [shape];
    shape := [[0, 1, 1, 0], [0, 1, 0, 0], [0, 1, 0, 0], [0, 0, 0, 0]];
    shapes := shapes + [shape];
    piece := Piece(x := 4, y := 0, color := Rgb(115, 196, 144), shapes := shapes, orientation := 0);
    assert piece == Spawn(L);
    pieces := pieces + [piece];

    // O tetromino
    shapes := [];
    shape := [[1, 1, 0, 0], [1, 1, 0, 0], [0, 0, 0, 0], [0, 0, 0, 0]];
    shapes := shapes + [shape];
    piece := Piece(x := 4, y := 0, color := Rgb(221, 77, 182), shapes := shapes, orientation := 0);
    assert piece == Spawn(O);
    pieces := pieces + [piece];

    // I tetromino
    shapes := [];
    shape := [[0, 0, 0, 0], [1, 1, 1, 1], [0, 0, 0, 0], [0, 0, 0, 0]];
    shapes := shapes + [shape];
    shape := [[0, 1, 0, 0], [0, 1, 0, 0], [0, 1, 0, 0], [0, 1, 0, 0]];
    shapes := shapes + [shape];
    piece := Piece(x := 4, y := 0, color := Rgb(23, 21, 41), shapes := shapes, orientation := 0);
    assert piece == Spawn(I);
    pieces := pieces + [piece];

    // S tetromino
    shapes := [];
    shape := [[0, 1, 0, 0], [1, 1, 0, 0], [1, 0, 0, 0], [0, 0, 0, 0]];
    shapes := shapes + [shape];
    shape := [[1, 1, 0, 0], [0, 1, 1, 0], [0, 0, 0, 0], [0, 0, 0, 0]];
    shapes := shapes + [shape];
    piece := Piece(x := 4, y := 0, color := Rgb(82, 155, 129), shapes := shapes, orientation := 0);
    assert piece == Spawn(S);
    pieces := pieces + [piece];

    // Z tetromino
    shapes := [];
    shape := [[1, 0, 0, 0], [1, 1, 0, 0], [0, 1, 0, 0], [0, 0, 0, 0]];
    shapes := shapes + [shape];
    shape := [[0, 1, 1, 0], [1, 1, 0, 0], [0, 0, 0, 0], [0, 0, 0, 0]];
    shapes := shapes + [shape];
    piece := Piece(x := 4, y := 0, color := Rgb(136, 73, 128), shapes := shapes, orientation := 0);
    assert piece == Spawn(Z);
    pieces := pieces + [piece];

    // T tetromino
    shapes := [];
    shape := [[1, 0, 0, 0], [1, 1, 0, 0], [1, 0, 0, 0], [0, 0, 0, 0]];
    shapes := shapes + [shape];
    shape := [[0, 1, 0, 0], [1, 1, 1, 0], [0, 0, 0, 0], [0, 0, 0, 0]];
    shapes := shapes + [shape];
    shape := [[0, 1, 0, 0], [1, 1, 0, 0], [0, 1, 0, 0], [0, 0, 0, 0]];
    shapes := shapes + [shape];
    shape := [[1, 1, 1, 0], [0, 1, 0, 0], [0, 0, 0, 0], [0, 0, 0, 0]];
    shapes := shapes + [shape];
    piece := Piece(x := 4, y := 0, color := Rgb(255, 167, 235), shapes := shapes, orientation := 0);
    assert piece == Spawn(T);
    pieces := pieces + [piece];
    CatalogueOrder();
  }
}
