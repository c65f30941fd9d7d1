# pp-chess bitboards in Dafny

This project models the core of pp-chess, a small chess program in Rust built on bitboards. The model covers:

- the `Bitboards` value: twelve 64-bit masks, one per side and piece kind;
- the starting arrangement built by `Bitboards::new`;
- the occupancy test `is_occupied`;
- the white-pawn attack test and the attack aggregates `is_attacked_by_white_pieces`, `is_attacked_by_black_pieces` and `is_attacked`;
- the `is_in_check` placeholder;
- the coordinate test `is_coord_on_board`;
- the text-mode board printer `print_board`.

Square `i` is bit `i` of a mask. Its file is `i % 8` (file 0 is "a") and its rank is `i / 8`.

The project has three modules:

- `Position` (`position.dfy`) holds the masks, `New`, `IsOccupied`, the square encoding and `IsCoordOnBoard`. It also proves facts about the starting arrangement: where each piece stands, that no square is shared, that the first two and last two ranks are occupied, and that there are 32 pieces.
- `Attacks` (`attacks.dfy`) holds the pawn test exactly as written, the per-side aggregates, `IsAttacked` and `IsInCheck`.
- `Render` (`render.dfy`) holds `print_board`. Three methods make it up, and they are proved against the specification functions `SquareChar`, `RankLine` and `BoardText`:
  - `DrawSquare` is the if-chain on one square.
  - `DrawRank` is the inner loop over the files of one rank.
  - `PrintBoard` is the outer loop over the ranks.

Squares passed to the queries are the source's `usize` values and the masks are `u64`; both are `bv64` here. Every shift the source performs is a `bv64` shift. The loop counters of `print_board` are naturals below 8; `SquareOf` turns them into the `bv64` square `rank * 8 + file`.

The per-piece tests for knights, bishops, rooks, queens, kings and black pawns are declared in the source without a body. Here they are a function parameter of type `Undefined`. Every statement about the aggregates therefore holds whatever those tests turn out to do.

Three points where the code differs from what its comments and names suggest. The model follows the code.

- The king literal of `new` is bit 3 (d1) and the queen literal is bit 4 (e1), although the comments say the queen is on d1 and the king on e1. Black's king is bit 59 (d8) and its queen bit 60 (e8). `NewRoyals` and `NewRoyalsDrawn` state the literals as written.
- Rust binds `<<` tighter than `&`, and `&` tighter than `!=`. So `is_attacked_by_white_pawns` computes `((white_pawns >> k) & (1 << (pos - k))) != 0`, which tests bit `pos` of `white_pawns` itself. The result is "`pos` is at least 16 and a white pawn stands on `pos`". No diagonal neighbour is ever examined. `AttackedByWhitePawns` states exactly this, and `NewNoWhitePawnAttacks` shows that on the starting board it never holds.
- `is_in_check` is a placeholder that always answers false; `IsInCheck` says so.

## Model

| member | source | states |
|---|---|---|
| Position.IsOccupied | src/main.rs:63-77 | A square is occupied exactly when some piece's mask has its bit set. |
| Position.NewPlacement | src/main.rs:32-60 | Each literal of `new` holds exactly the squares of the starting table: pawns on 8-15 and 48-55, knights on 1/6 and 57/62, bishops on 2/5 and 58/61, rooks on 0/7 and 56/63, queens on 4 and 60, kings on 3 and 59. |
| Position.NewRoyals | src/main.rs:42-58 | Each queen and king literal has exactly one bit: white queen 4, black queen 60, white king 3, black king 59. |
| Position.InitiallyOnUnique | src/main.rs:32-60 | The starting table puts at most one piece on each square, and a piece on every square of ranks 1, 2, 7 and 8. |
| Position.NewWellFormed | src/main.rs:32-60 | No square of the starting arrangement lies in two masks: the masks are pairwise disjoint. |
| Position.NewOccupancy | src/main.rs:32-77 | In the starting arrangement, `is_occupied` holds exactly on squares 0-15 and 48-63. |
| Position.NewOccupiedCountBelow | src/main.rs:32-77 | Counting occupied squares of the starting arrangement from square 0 gives one per square up to 16, none from 16 to 48, and one per square again up to 64. |
| Position.NewPieceCount | src/main.rs:32-77 | The starting arrangement occupies 32 squares. |
| Position.IsCoordOnBoard | src/main.rs:130-132 | A coordinate pair is on the board exactly when the square it encodes is below 64 and decodes back to the same file and rank. |
| Position.SquareRoundTrip | src/main.rs:130-132 | Every square below 64 decodes to an on-board pair, and that pair encodes the square again. |
| Position.SquareOf | src/main.rs:139 | The square the board walk computes from a file and a rank below 8 is below 64. |
| Attacks.AttackedByWhitePawns | src/main.rs:79-86 | The pawn test as written holds exactly when `pos >= 16` and bit `pos` of the white-pawn mask is set. |
| Attacks.LeftCaptureTest | src/main.rs:82 | With Rust's precedence, the left-capture term is nonzero exactly when bit `pos` of the mask is set. |
| Attacks.RightCaptureTest | src/main.rs:83 | With Rust's precedence, the right-capture term is nonzero exactly when bit `pos` of the mask is set. |
| Attacks.WhitePawnsNeverAttackLowRanks | src/main.rs:79-86 | Squares below 16 are never reported attacked by white pawns, whatever the masks hold. |
| Attacks.NewNoWhitePawnAttacks | src/main.rs:79-86 | On the starting board no square is reported attacked by white pawns. |
| Attacks.SideAttackCases | src/main.rs:100-116 | Some kind of a side attacks a square exactly when one of its six per-piece tests holds. |
| Attacks.AttackedByBlackPieces | src/main.rs:100-107 | True exactly when some black piece's test reports an attack on the square. |
| Attacks.AttackedByWhitePieces | src/main.rs:109-116 | True exactly when some white piece's test reports an attack; the white-pawn test is the as-written one. |
| Attacks.PieceAttackCases | src/main.rs:118-120 | Some piece attacks the square exactly when a white piece or a black piece does. |
| Attacks.IsAttacked | src/main.rs:118-120 | True exactly when some piece of either side reports an attack on the square. |
| Attacks.IsInCheck | src/main.rs:124-127 | Always false, for every position. |
| Attacks.IsAttackedMonotone | src/main.rs:100-120 | If the bodiless tests answer yes more often, `is_attacked` can only change from false to true. |
| Attacks.IsAttackedByPawnsOnly | src/main.rs:79-120 | If every bodiless test answers no, `is_attacked` holds exactly when `pos >= 16` and a white pawn stands on `pos`. |
| Render.PieceCharRoundTrip | src/main.rs:1-13 | The twelve piece characters are distinct and none is `.`. Reading a character back gives its piece. Upper case means white. |
| Render.Occupant | src/main.rs:142-166 | Any piece the if-chain picks has its bit set on the square. |
| Render.OccupantPrecedes | src/main.rs:142-166 | When any mask has the bit, the chain picks a piece, and that piece comes no later in the test order than any piece on the square. |
| Render.OccupantIsFirst | src/main.rs:142-166 | The chain picks `p` exactly when `p` is on the square and no piece on the square comes earlier in the test order. |
| Render.OccupantEmpty | src/main.rs:142-166 | The chain picks nothing exactly when `is_occupied` is false on the square. |
| Render.OccupantWellFormed | src/main.rs:142-166 | When no two masks share a bit, the chain picks the piece that stands on the square. |
| Render.SquareCharMeaning | src/main.rs:140-166 | `.` is drawn exactly when the chain picks nothing. Reading the drawn character back gives the piece picked. |
| Render.NewOccupant | src/main.rs:32-60 | On the starting board the chain picks the starting table's piece on ranks 1, 2, 7 and 8, and nothing elsewhere. |
| Render.NewRoyalsDrawn | src/main.rs:42-58 | On the starting board `K` is drawn on d1, `Q` on e1, `k` on d8 and `q` on e8. |
| Render.RankLabelDigit | src/main.rs:137 | Each rank's number is one of the digits 1 to 8, and different ranks get different digits. |
| Render.CellsLayout | src/main.rs:168-169 | Pushing a space and then a character per square gives a string twice as long. Each square's character sits right after its space. |
| Render.RankLineLayout | src/main.rs:137-171 | A rank line has 20 characters: number, space, bar, then file `f` at column `4 + 2f` after a space, then a closing bar. |
| Render.RankLinesLayout | src/main.rs:136-173 | The rank lines come highest rank first: rank `r` is line `7 - r` of the block. |
| Render.BoardTextLayout | src/main.rs:134-175 | The output is 11 lines: border, ranks 8 down to 1, border, file letters. Rank `r` is line `8 - r`. |
| Render.DrawSquare | src/main.rs:139-166 | The if-chain on one square yields the character `SquareChar` specifies. |
| Render.DrawRank | src/main.rs:137-171 | The inner loop builds exactly the rank's line `RankLine`. |
| Render.PrintBoard | src/main.rs:134-176 | The whole walk yields exactly `BoardText`: the lines in print order. |

## Left out

- Printing. `print_board` and `main` write to standard output. `PrintBoard` returns the lines instead, with no trailing newlines, and `main` is not modelled.
- The eleven bodiless per-piece tests. Their semantics is not in the source; they are the parameter `Undefined`, and nothing is assumed about them.
- The shift panic. Shifting a `u64` by 64 or more panics in a debug build, so every query requires `pos < 64`. The behaviour for larger `pos` is not modelled.
- The intended chess meaning. Real pawn captures, a real check test, and the king and queen on their usual files are what the comments and names suggest. The model states what the code computes.
- The three-method split of `print_board`. The source has one function with nested loops. Here the if-chain is `DrawSquare`, the inner loop is `DrawRank` and the outer loop is `PrintBoard`. Each line is built the same way, one character at a time.
- Attacks.IsInCheck: the contract states only what the placeholder returns, because the source implements nothing beyond that.
- The concrete printed text of the starting board. It is not stated as string literals. `NewOccupant`, `NewRoyalsDrawn` and the layout lemmas together fix every character of it.
