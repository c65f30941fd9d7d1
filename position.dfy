/** The position: twelve 64-bit piece masks, the arrangement `new` builds,
    the occupancy query and the square/coordinate encoding.
    Square `i` is bit `i` of a mask; its file is `i % 8` (file 0 is "a")
    and its rank is `i / 8`. Squares and coordinates are the source's
    `usize` values, which are 64-bit words: they are `bv64` here. */
module Position {

  datatype Side = White | Black

  datatype Kind = Pawn | Knight | Bishop | Rook | Queen | King

  datatype Piece = Piece(side: Side, kind: Kind)

  /** One mask per side and piece kind, as in the source's struct. */
  datatype Bitboards = Bitboards(
    whitePawns: bv64,
    whiteKnights: bv64,
    whiteBishops: bv64,
    whiteRooks: bv64,
    whiteQueens: bv64,
    whiteKing: bv64,
    blackPawns: bv64,
    blackKnights: bv64,
    blackBishops: bv64,
    blackRooks: bv64,
    blackQueens: bv64,
    blackKing: bv64)

  /** The mask that holds piece `p`. */
  function Board(b: Bitboards, p: Piece): bv64
  {
    match p
    case Piece(White, Pawn) => b.whitePawns
    case Piece(White, Knight) => b.whiteKnights
    case Piece(White, Bishop) => b.whiteBishops
    case Piece(White, Rook) => b.whiteRooks
    case Piece(White, Queen) => b.whiteQueens
    case Piece(White, King) => b.whiteKing
    case Piece(Black, Pawn) => b.blackPawns
    case Piece(Black, Knight) => b.blackKnights
    case Piece(Black, Bishop) => b.blackBishops
    case Piece(Black, Rook) => b.blackRooks
    case Piece(Black, Queen) => b.blackQueens
    case Piece(Black, King) => b.blackKing
  }

  /** The twelve pieces in the order of the source's struct fields, which
      is also the order `is_occupied` ORs the masks in and the order the
      board walk tests them in. */
  const Pieces: seq<Piece> := [
    Piece(White, Pawn), Piece(White, Knight), Piece(White, Bishop),
    Piece(White, Rook), Piece(White, Queen), Piece(White, King),
    Piece(Black, Pawn), Piece(Black, Knight), Piece(Black, Bishop),
    Piece(Black, Rook), Piece(Black, Queen), Piece(Black, King)]

  /** Where `p` stands in `Pieces`: every piece occurs there. */
  function PieceIndex(p: Piece): (i: nat)
    ensures i < |Pieces| && Pieces[i] == p
  {
    (match p.side case White => 0 case Black => 6)
    + (match p.kind
       case Pawn => 0 case Knight => 1 case Bishop => 2
       case Rook => 3 case Queen => 4 case King => 5)
  }

  /** The source's bit test `(m >> pos) & 1 == 1`. */
  function Bit(m: bv64, pos: bv64): bool
    requires pos < 64
  {
    (m >> pos) & 1 == 1
  }

  /** No square holds two pieces. */
  ghost predicate WellFormed(b: Bitboards)
  {
    forall pos: bv64, p: Piece, q: Piece ::
      pos < 64 && Bit(Board(b, p), pos) && Bit(Board(b, q), pos) ==> p == q
  }

  /** `Bitboards::new`: the literal masks of the source. Read off bit by
      bit, the king literal is bit 3 (d1) and the queen literal bit 4 (e1);
      black mirrors this with the queen on bit 60 and the king on bit 59. */
  function New(): Bitboards
  {
    Bitboards(
      0x0000_0000_0000_FF00,
      0x0000_0000_0000_0042,
      0x0000_0000_0000_0024,
      0x0000_0000_0000_0081,
      0x0000_0000_0000_0010,
      0x0000_0000_0000_0008,
      0x00FF_0000_0000_0000,
      0x4200_0000_0000_0000,
      0x2400_0000_0000_0000,
      0x8100_0000_0000_0000,
      0x1000_0000_0000_0000,
      0x0800_0000_0000_0000)
  }

  /** The squares piece `p` stands on in the arrangement `New` builds,
      written as a table of squares rather than as masks. */
  predicate InitiallyOn(p: Piece, pos: bv64)
  {
    match p
    case Piece(White, Pawn) => 8 <= pos < 16
    case Piece(White, Knight) => pos == 1 || pos == 6
    case Piece(White, Bishop) => pos == 2 || pos == 5
    case Piece(White, Rook) => pos == 0 || pos == 7
    case Piece(White, Queen) => pos == 4
    case Piece(White, King) => pos == 3
    case Piece(Black, Pawn) => 48 <= pos < 56
    case Piece(Black, Knight) => pos == 57 || pos == 62
    case Piece(Black, Bishop) => pos == 58 || pos == 61
    case Piece(Black, Rook) => pos == 56 || pos == 63
    case Piece(Black, Queen) => pos == 60
    case Piece(Black, King) => pos == 59
  }

  /** `is_occupied`: bit `pos` of the OR of all masks. It holds exactly when
      some piece's mask has bit `pos` set. */
  function IsOccupied(b: Bitboards, pos: bv64): (r: bool)
    requires pos < 64
    ensures r <==> exists p: Piece :: Bit(Board(b, p), pos)
  {
    AllPiecesBit(b, pos);
    Bit(
      b.whitePawns | b.whiteKnights | b.whiteBishops | b.whiteRooks | b.whiteQueens | b.whiteKing
      | b.blackPawns | b.blackKnights | b.blackBishops | b.blackRooks | b.blackQueens | b.blackKing,
      pos)
  }

  /** The number of occupied squares below `n`. */
  function OccupiedCount(b: Bitboards, n: bv64): (c: nat)
    requires n <= 64
    ensures c <= n as nat
    decreases n as nat
  {
    if n == 0 then 0
    else OccupiedCount(b, n - 1) + (if IsOccupied(b, n - 1) then 1 else 0)
  }

  /** The square at file `file` and rank `rank`, computed as the board walk
      computes it. */
  function Square(file: bv64, rank: bv64): bv64
  {
    rank * 8 + file
  }

  function File(pos: bv64): bv64
  {
    pos % 8
  }

  function Rank(pos: bv64): bv64
  {
    pos / 8
  }

  /** The square at a file and rank given as counters below 8, as the
      source's loops compute it. */
  function SquareOf(file: nat, rank: nat): (pos: bv64)
    requires file < 8 && rank < 8
    ensures pos < 64
  {
    Square(file as bv64, rank as bv64)
  }

  /** `is_coord_on_board`: a coordinate pair is on the board exactly when
      the square it encodes is a square of the board and decodes back to it. */
  function IsCoordOnBoard(x: bv64, y: bv64): (r: bool)
    ensures r <==> Square(x, y) < 64 && File(Square(x, y)) == x && Rank(Square(x, y)) == y
  {
    x < 8 && y < 8
  }

  // ---------------------------------------------------------------------
  // Bit-vector facts.

  lemma OrBit(x: bv64, y: bv64, pos: bv64)
    requires pos < 64
    ensures Bit(x | y, pos) <==> Bit(x, pos) || Bit(y, pos)
  {
  }

  // "A bit of an OR of twelve masks is set exactly when it is set in one of
  // them": first each direction on the raw bit tests, then the equivalence
  // on `Bit`. Stated on plain bit-vectors, the solver settles these far more
  // cheaply than on the fields of a `Bitboards` value.

  lemma OrOfTwelveOnlyIf(
    m0: bv64, m1: bv64, m2: bv64, m3: bv64, m4: bv64, m5: bv64,
    m6: bv64, m7: bv64, m8: bv64, m9: bv64, m10: bv64, m11: bv64, pos: bv64)
    requires pos < 64
    ensures Bit(m0 | m1 | m2 | m3 | m4 | m5 | m6 | m7 | m8 | m9 | m10 | m11, pos) ==>
      (Bit(m0, pos) || Bit(m1, pos) || Bit(m2, pos)
      || Bit(m3, pos) || Bit(m4, pos) || Bit(m5, pos)
      || Bit(m6, pos) || Bit(m7, pos) || Bit(m8, pos)
      || Bit(m9, pos) || Bit(m10, pos) || Bit(m11, pos))
  {
  }

  lemma OrOfTwelveIf(
    m0: bv64, m1: bv64, m2: bv64, m3: bv64, m4: bv64, m5: bv64,
    m6: bv64, m7: bv64, m8: bv64, m9: bv64, m10: bv64, m11: bv64, pos: bv64)
    requires pos < 64
    ensures (Bit(m0, pos) || Bit(m1, pos) || Bit(m2, pos)
      || Bit(m3, pos) || Bit(m4, pos) || Bit(m5, pos)
      || Bit(m6, pos) || Bit(m7, pos) || Bit(m8, pos)
      || Bit(m9, pos) || Bit(m10, pos) || Bit(m11, pos)) ==>
      Bit(m0 | m1 | m2 | m3 | m4 | m5 | m6 | m7 | m8 | m9 | m10 | m11, pos)
  {
  }

  lemma OrOfTwelve(
    m0: bv64, m1: bv64, m2: bv64, m3: bv64, m4: bv64, m5: bv64,
    m6: bv64, m7: bv64, m8: bv64, m9: bv64, m10: bv64, m11: bv64, pos: bv64)
    requires pos < 64
    ensures Bit(m0 | m1 | m2 | m3 | m4 | m5 | m6 | m7 | m8 | m9 | m10 | m11, pos) <==>
      (Bit(m0, pos) || Bit(m1, pos) || Bit(m2, pos)
      || Bit(m3, pos) || Bit(m4, pos) || Bit(m5, pos)
      || Bit(m6, pos) || Bit(m7, pos) || Bit(m8, pos)
      || Bit(m9, pos) || Bit(m10, pos) || Bit(m11, pos))
  {
    OrOfTwelveOnlyIf(m0, m1, m2, m3, m4, m5, m6, m7, m8, m9, m10, m11, pos);
    OrOfTwelveIf(m0, m1, m2, m3, m4, m5, m6, m7, m8, m9, m10, m11, pos);
  }

  /** Some mask has bit `pos` set exactly when one of the twelve fields has. */
  lemma SomeBoardBit(b: Bitboards, pos: bv64)
    requires pos < 64
    ensures (exists p: Piece :: Bit(Board(b, p), pos)) <==>
      (Bit(b.whitePawns, pos) || Bit(b.whiteKnights, pos) || Bit(b.whiteBishops, pos)
      || Bit(b.whiteRooks, pos) || Bit(b.whiteQueens, pos) || Bit(b.whiteKing, pos)
      || Bit(b.blackPawns, pos) || Bit(b.blackKnights, pos) || Bit(b.blackBishops, pos)
      || Bit(b.blackRooks, pos) || Bit(b.blackQueens, pos) || Bit(b.blackKing, pos))
  {
    if Bit(b.whitePawns, pos) {
      assert Bit(Board(b, Piece(White, Pawn)), pos);
    } else if Bit(b.whiteKnights, pos) {
      assert Bit(Board(b, Piece(White, Knight)), pos);
    } else if Bit(b.whiteBishops, pos) {
      assert Bit(Board(b, Piece(White, Bishop)), pos);
    } else if Bit(b.whiteRooks, pos) {
      assert Bit(Board(b, Piece(White, Rook)), pos);
    } else if Bit(b.whiteQueens, pos) {
      assert Bit(Board(b, Piece(White, Queen)), pos);
    } else if Bit(b.whiteKing, pos) {
      assert Bit(Board(b, Piece(White, King)), pos);
    } else if Bit(b.blackPawns, pos) {
      assert Bit(Board(b, Piece(Black, Pawn)), pos);
    } else if Bit(b.blackKnights, pos) {
      assert Bit(Board(b, Piece(Black, Knight)), pos);
    } else if Bit(b.blackBishops, pos) {
      assert Bit(Board(b, Piece(Black, Bishop)), pos);
    } else if Bit(b.blackRooks, pos) {
      assert Bit(Board(b, Piece(Black, Rook)), pos);
    } else if Bit(b.blackQueens, pos) {
      assert Bit(Board(b, Piece(Black, Queen)), pos);
    } else if Bit(b.blackKing, pos) {
      assert Bit(Board(b, Piece(Black, King)), pos);
    }
  }

  /** Bit `pos` of the OR of the masks is set exactly when it is set in one of them. */
  lemma AllPiecesBit(b: Bitboards, pos: bv64)
    requires pos < 64
    ensures Bit(
      b.whitePawns | b.whiteKnights | b.whiteBishops | b.whiteRooks | b.whiteQueens | b.whiteKing
        | b.blackPawns | b.blackKnights | b.blackBishops | b.blackRooks | b.blackQueens | b.blackKing,
      pos) <==> exists p: Piece :: Bit(Board(b, p), pos)
  {
    OrOfTwelve(b.whitePawns, b.whiteKnights, b.whiteBishops, b.whiteRooks, b.whiteQueens, b.whiteKing,
      b.blackPawns, b.blackKnights, b.blackBishops, b.blackRooks, b.blackQueens, b.blackKing, pos);
    SomeBoardBit(b, pos);
  }

  // ---------------------------------------------------------------------
  // The arrangement built by `New`.

  /** Every literal of `New` holds exactly the squares of the table. */
  lemma NewPlacement(p: Piece, pos: bv64)
    requires pos < 64
    ensures Bit(Board(New(), p), pos) <==> InitiallyOn(p, pos)
  {
  }

  /** The queen literals have one bit set each: 4 (e1) and 60 (e8); the king
      literals too: 3 (d1) and 59 (d8). */
  lemma NewRoyals(pos: bv64)
    requires pos < 64
    ensures Bit(New().whiteQueens, pos) <==> pos == 4
    ensures Bit(New().blackQueens, pos) <==> pos == 60
    ensures Bit(New().whiteKing, pos) <==> pos == 3
    ensures Bit(New().blackKing, pos) <==> pos == 59
  {
    NewPlacement(Piece(White, Queen), pos);
    NewPlacement(Piece(Black, Queen), pos);
    NewPlacement(Piece(White, King), pos);
    NewPlacement(Piece(Black, King), pos);
  }

  /** The piece the table puts on an occupied square. */
  function InitialOccupant(pos: bv64): Piece
  {
    if pos < 8 then
      if pos == 0 || pos == 7 then Piece(White, Rook)
      else if pos == 1 || pos == 6 then Piece(White, Knight)
      else if pos == 2 || pos == 5 then Piece(White, Bishop)
      else if pos == 3 then Piece(White, King)
      else Piece(White, Queen)
    else if pos < 16 then Piece(White, Pawn)
    else if pos < 56 then Piece(Black, Pawn)
    else if pos == 56 || pos == 63 then Piece(Black, Rook)
    else if pos == 57 || pos == 62 then Piece(Black, Knight)
    else if pos == 58 || pos == 61 then Piece(Black, Bishop)
    else if pos == 59 then Piece(Black, King)
    else Piece(Black, Queen)
  }

  /** The table puts at most one piece on a square, and puts a piece on
      every square of the first two and the last two ranks. */
  lemma InitiallyOnUnique(p: Piece, pos: bv64)
    requires pos < 64
    ensures InitiallyOn(p, pos) ==> p == InitialOccupant(pos)
    ensures (pos < 16 || 48 <= pos) ==> InitiallyOn(InitialOccupant(pos), pos)
  {
  }

  /** No square of the initial arrangement holds two pieces. */
  lemma NewWellFormed()
    ensures WellFormed(New())
  {
    forall pos: bv64, p: Piece, q: Piece | pos < 64 && Bit(Board(New(), p), pos) && Bit(Board(New(), q), pos)
      ensures p == q
    {
      NewPlacement(p, pos);
      NewPlacement(q, pos);
      InitiallyOnUnique(p, pos);
      InitiallyOnUnique(q, pos);
    }
  }

  /** Initially exactly the two back ranks of each side are occupied. */
  lemma NewOccupancy(pos: bv64)
    requires pos < 64
    ensures IsOccupied(New(), pos) <==> pos < 16 || 48 <= pos
  {
    if IsOccupied(New(), pos) {
      var p: Piece :| Bit(Board(New(), p), pos);
      NewPlacement(p, pos);
    } else if pos < 16 || 48 <= pos {
      var p := InitialOccupant(pos);
      InitiallyOnUnique(p, pos);
      NewPlacement(p, pos);
    }
  }

  /** Counting the occupied squares of the initial arrangement from square
      0 up: one per square through the first two ranks, none over the
      middle four, one per square again over the last two. */
  lemma {:induction false} NewOccupiedCountBelow(n: bv64)
    requires n <= 64
    ensures OccupiedCount(New(), n) == if n <= 16 then n as nat else if n <= 48 then 16 else n as nat - 32
    decreases n as nat
  {
    if n > 0 {
      NewOccupiedCountBelow(n - 1);
      NewOccupancy(n - 1);
    }
  }

  /** The initial arrangement holds 32 pieces. */
  lemma NewPieceCount()
    ensures OccupiedCount(New(), 64) == 32
  {
    NewOccupiedCountBelow(64);
  }

  // ---------------------------------------------------------------------
  // Squares and coordinates.

  /** Every square of the board decodes to an on-board coordinate pair that
      encodes it again. */
  lemma SquareRoundTrip(pos: bv64)
    requires pos < 64
    ensures IsCoordOnBoard(File(pos), Rank(pos))
    ensures Square(File(pos), Rank(pos)) == pos
  {
  }
}
