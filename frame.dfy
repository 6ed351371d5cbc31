/**
 * The frame builder of the library crate: a frame is a vector of rows,
 * each row a vector of colours, and `create_frame` fills every entry
 * with pure red.
 */
module Frame {
  import opened Bytes

  /** An RGB colour of the frame; the crate's `Colour` struct. */
  datatype Colour = Colour(red: byte, green: byte, blue: byte)

  /** The one colour `create_frame` writes. */
  const Red: Colour := Colour(255, 0, 0)

  /** A row of `n` entries, all equal to `c`. */
  function Row(n: nat, c: Colour): (r: seq<Colour>)
    ensures |r| == n
    ensures forall j :: 0 <= j < n ==> r[j] == c
  {
    if n == 0 then [] else Row(n - 1, c) + [c]
  }

  /** A grid of `rows` rows, each `Row(cols, c)`. */
  function Grid(rows: nat, cols: nat, c: Colour): (g: seq<seq<Colour>>)
    ensures |g| == rows
    ensures forall i :: 0 <= i < rows ==> g[i] == Row(cols, c)
  {
    if rows == 0 then [] else Grid(rows - 1, cols, c) + [Row(cols, c)]
  }

  /** `g` has `rows` rows of `cols` entries and every entry is `c`. */
  ghost predicate Uniform(g: seq<seq<Colour>>, rows: nat, cols: nat, c: Colour)
  {
    |g| == rows &&
    forall i :: 0 <= i < rows ==>
      |g[i]| == cols && forall j :: 0 <= j < cols ==> g[i][j] == c
  }

  /** The recursive `Grid` is exactly the uniform grid: both directions. */
  lemma {:induction false} GridIsUniform(g: seq<seq<Colour>>, rows: nat, cols: nat, c: Colour)
    ensures g == Grid(rows, cols, c) <==> Uniform(g, rows, cols, c)
  {
    var h := Grid(rows, cols, c);
    if Uniform(g, rows, cols, c) {
      forall i | 0 <= i < rows
        ensures g[i] == h[i]
      {
        assert |g[i]| == |h[i]| == cols;
        forall j | 0 <= j < cols ensures g[i][j] == h[i][j] { }
      }
    }
  }

  /**
   * `create_frame(x, y)`: `x` rows, each built by pushing `y` red entries
   * one by one, each row pushed onto the frame in turn.
   */
  method CreateFrame(x: u32, y: u32) returns (frame: seq<seq<Colour>>)
    ensures |frame| == x as int
    ensures forall i :: 0 <= i < |frame| ==>
      |frame[i]| == y as int && forall j :: 0 <= j < |frame[i]| ==> frame[i][j] == Red
    ensures x == 0 ==> frame == []
    ensures y == 0 ==> forall i :: 0 <= i < |frame| ==> frame[i] == []
    ensures frame == Grid(x as int, y as int, Red)
  {
    frame := [];
    for i := 0 to x as int
      invariant |frame| == i
      invariant forall k :: 0 <= k < i ==>
        |frame[k]| == y as int && forall j :: 0 <= j < |frame[k]| ==> frame[k][j] == Red
    {
      var row: seq<Colour> := [];
      for j := 0 to y as int
        invariant |row| == j
        invariant forall k :: 0 <= k < j ==> row[k] == Red
      {
        var colour := Colour(255, 0, 0);
        row := row + [colour];
      }
      frame := frame + [row];
    }
    GridIsUniform(frame, x as int, y as int, Red);
  }
}
