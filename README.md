# nultris: tetromino catalogue and frame builder

This project is a Dafny model of two small parts of the nultris terminal Tetris game.

- **The tetromino catalogue** (`src/sprites.rs`). `create_pieces` returns seven pieces in the order J, L, O, I, S, Z, T. Each piece has a list of pre-baked 4x4 rotation masks with 0/1 entries, a fixed RGB colour, and the spawn pose x = 4, y = 0, orientation 0. Module `Sprites` has:
  - the `Piece` and `Color` datatypes;
  - the catalogue as a specification function `Catalogue()`, built from `Shapes(k)`, `ColorOf(k)` and `Spawn(k)`;
  - the method `CreatePieces`, written with the same step-by-step pushes as the source and proved equal to `Catalogue()`;
  - lemmas stating what the catalogue guarantees.
- **The frame builder** (`src/lib.rs`). `create_frame(x, y)` builds `x` rows of `y` entries, every entry pure red, using two nested loops that push onto vectors. Module `Frame` models the `Colour` struct and gives `CreateFrame` the same nested loops. It is proved against the recursive specification `Grid`, and a lemma shows `Grid` is the same thing as "x rows of y entries, all red".

Module `Bytes` provides the Rust integer types used here: `u8` as `byte` and `u32`.

Modelling decisions:
- A mask is read as `mask[row][column]`. Filled cell (row, column) of a piece at (x, y) sits at column `x + column` and row `y + row` of the play area.
- The play area is 10 columns by 20 rows, the size `src/main.rs:5` passes to `create_play_area`.
- `Piece` is not defined in any of the modelled files. Its five fields come from the struct literals in `src/sprites.rs`. Their types are not visible there, so `x`, `y` and `orientation` are modelled as `int`.
- crossterm's `Color::Rgb { r, g, b }` becomes `Sprites.Color`, a datatype with a single constructor `Rgb(r, g, b)` over bytes.
- A Rust `Vec` that is pushed onto becomes a `seq` local that is reassigned with `s := s + [e]`.

## Model

| member | source | states |
|---|---|---|
| `Sprites.CreatePieces` | src/sprites.rs:4-150 | the pushes build exactly the seven-piece catalogue `Catalogue()` |
| `Sprites.CatalogueOrder` | src/sprites.rs:7-149 | the catalogue has seven pieces: J, L, O, I, S, Z, T at their spawn poses, in that order |
| `Sprites.RotationCounts` | src/sprites.rs:8-136 | the pieces have 4, 4, 1, 2, 2, 2 and 4 rotation states, in catalogue order |
| `Sprites.ShapeIsMask` | src/sprites.rs:9-135 | every rotation state of every kind has four rows of four entries, and each entry is 0 or 1 |
| `Sprites.ShapeFilled` | src/sprites.rs:9-135 | every rotation state of every kind has exactly four entries equal to 1, counted row by row |
| `Sprites.FilledIsCellCount` | src/sprites.rs:9 | counting a mask's 1-entries row by row gives the size of its set of filled (row, column) cells |
| `Sprites.ShapeIsTetromino` | src/sprites.rs:7-136 | every rotation state is a 0/1 4x4 mask whose set of filled cells has exactly four elements; this is what the "tetromino" comments promise |
| `Sprites.CatalogueTetrominoes` | src/sprites.rs:7-148 | every catalogue piece has a non-empty list of rotation states, each a 0/1 4x4 mask with exactly four filled cells |
| `Sprites.SpawnPose` | src/sprites.rs:17-147 | every piece starts at x = 4, y = 0 with orientation 0, and orientation 0 is a valid index into its rotation states |
| `Sprites.DistinctColours` | src/sprites.rs:20-144 | no two catalogue pieces share a colour |
| `Sprites.SpawnFits` | src/sprites.rs:9-147 | at the spawn pose, every filled cell of orientation 0 is in columns 4..7 and rows 0..2, so it lies inside the 10x20 play area created at src/main.rs:5 |
| `Frame.Row` | src/lib.rs:16-23 | a row of `n` entries where every entry is the given colour |
| `Frame.Grid` | src/lib.rs:14-25 | `rows` rows where every row is `Row(cols, c)` |
| `Frame.GridIsUniform` | src/lib.rs:14-25 | a grid equals `Grid(rows, cols, c)` if and only if it has `rows` rows of `cols` entries and every entry is `c` |
| `Frame.CreateFrame` | src/lib.rs:11-27 | the result has `x` rows of `y` entries and every entry is `Colour { red: 255, green: 0, blue: 0 }`; `x = 0` gives an empty frame and `y = 0` gives `x` empty rows; the result is `Grid(x, y, Red)` |

## Left out

- `src/main.rs`: process wiring and terminal rendering. `create_play_area`, `create_current_piece` and `render_frame` are not part of this model. Its call `create_frame(&play_area, &current_piece)` does not match the two-`u32` signature in `src/lib.rs`, so only the `src/lib.rs` version is modelled. The 10x20 size it passes is the only thing taken from it.
- The game engine: collision checks, locking, row clearing, spawning, game-over detection and the fall-delay curve are not in the modelled files, so they are not modelled.
- Random piece selection, keyboard input and the crossterm library are I/O, randomness or foreign code. crossterm is reduced to an RGB triple.
- Vec allocation, capacity and moves are not modelled. The vectors are values (`seq`), so aliasing is not captured; none of the modelled Rust code shares them.
- Debug formatting (`#[derive(Debug)]` on `Colour`) is not modelled.
