/** Attack queries over a position: the white-pawn test as the source
    computes it, the two per-side aggregates, `is_attacked`, and the
    `is_in_check` placeholder. The eleven per-piece tests the source declares
    without a body are an input here (`Undefined`), so the aggregates are
    stated without inventing what those tests do. */
module Attacks {
  import opened Position

  /** The per-piece attack tests that have no body in the source: for a
      position, a piece other than the white pawn, and a square, whether
      that piece attacks the square. */
  type Undefined = (Bitboards, Piece, bv64) -> bool

  // ---------------------------------------------------------------------
  // Shift facts behind the white-pawn test, on plain bit-vectors.

  lemma MaskSet(x: bv64, r: bv64)
    requires r < 64
    ensures (x >> r) & 1 == 1 ==> (x & ((1 as bv64) << r)) != 0
  {
  }

  lemma MaskClear(x: bv64, r: bv64)
    requires r < 64
    ensures (x >> r) & 1 == 0 ==> (x & ((1 as bv64) << r)) == 0
  {
  }

  lemma LowBit(x: bv64)
    ensures x & 1 == 0 || x & 1 == 1
  {
  }

  lemma ShiftBy9(m: bv64, pos: bv64)
    requires 9 <= pos < 64
    ensures (m >> 9) >> (pos - 9) == m >> pos
  {
  }

  lemma ShiftBy7(m: bv64, pos: bv64)
    requires 7 <= pos < 64
    ensures (m >> 7) >> (pos - 7) == m >> pos
  {
  }

  /** `(m >> 9) & 1 << (pos - 9)` is nonzero exactly when bit `pos` of `m` is set. */
  lemma LeftCaptureTest(m: bv64, pos: bv64)
    requires 16 <= pos < 64
    ensures ((m >> 9) & ((1 as bv64) << (pos - 9)) != 0) <==> Bit(m, pos)
  {
    MaskSet(m >> 9, pos - 9);
    MaskClear(m >> 9, pos - 9);
    LowBit((m >> 9) >> (pos - 9));
    ShiftBy9(m, pos);
  }

  /** `(m >> 7) & 1 << (pos - 7)` is nonzero exactly when bit `pos` of `m` is set. */
  lemma RightCaptureTest(m: bv64, pos: bv64)
    requires 16 <= pos < 64
    ensures ((m >> 7) & ((1 as bv64) << (pos - 7)) != 0) <==> Bit(m, pos)
  {
    MaskSet(m >> 7, pos - 7);
    MaskClear(m >> 7, pos - 7);
    LowBit((m >> 7) >> (pos - 7));
    ShiftBy7(m, pos);
  }

  // ---------------------------------------------------------------------
  // The queries.

  /** `is_attacked_by_white_pawns` as written. Rust binds `<<` tighter than
      `&` and `&` tighter than `!=`, so each disjunct is
      `((white_pawns >> k) & (1 << (pos - k))) != 0`, which tests bit `pos`
      of `white_pawns` itself: the result is "a white pawn stands on `pos`",
      and never looks at a diagonal neighbour. */
  function AttackedByWhitePawns(b: Bitboards, pos: bv64): (r: bool)
    requires pos < 64
    ensures r <==> 16 <= pos && Bit(b.whitePawns, pos)
  {
    if pos >= 16 then
      var pawns := b.whitePawns;
      LeftCaptureTest(pawns, pos);
      RightCaptureTest(pawns, pos);
      ((pawns >> 9) & ((1 as bv64) << (pos - 9)) != 0)
      || ((pawns >> 7) & ((1 as bv64) << (pos - 7)) != 0)
    else
      false
  }

  /** Whether piece `p` attacks `pos`: the white-pawn test above for the
      white pawn, the undefined test for every other piece. */
  function AttackedByPiece(b: Bitboards, p: Piece, pos: bv64, undefined: Undefined): bool
    requires pos < 64
  {
    if p == Piece(White, Pawn) then AttackedByWhitePawns(b, pos) else undefined(b, p, pos)
  }

  /** Splits "some kind of `side` attacks `pos`" into the six kinds. */
  lemma SideAttackCases(b: Bitboards, side: Side, pos: bv64, undefined: Undefined)
    requires pos < 64
    ensures (exists k: Kind :: AttackedByPiece(b, Piece(side, k), pos, undefined))
            <==> (AttackedByPiece(b, Piece(side, Pawn), pos, undefined)
                  || AttackedByPiece(b, Piece(side, Knight), pos, undefined)
                  || AttackedByPiece(b, Piece(side, Bishop), pos, undefined)
                  || AttackedByPiece(b, Piece(side, Rook), pos, undefined)
                  || AttackedByPiece(b, Piece(side, Queen), pos, undefined)
                  || AttackedByPiece(b, Piece(side, King), pos, undefined))
  {
    if exists k: Kind :: AttackedByPiece(b, Piece(side, k), pos, undefined) {
      var k: Kind :| AttackedByPiece(b, Piece(side, k), pos, undefined);
      match k
      case Pawn =>
      case Knight =>
      case Bishop =>
      case Rook =>
      case Queen =>
      case King =>
    }
  }

  /** `is_attacked_by_black_pieces`: the OR of the six black per-piece tests. */
  function AttackedByBlackPieces(b: Bitboards, pos: bv64, undefined: Undefined): (r: bool)
    requires pos < 64
    ensures r <==> exists k: Kind :: AttackedByPiece(b, Piece(Black, k), pos, undefined)
  {
    SideAttackCases(b, Black, pos, undefined);
    undefined(b, Piece(Black, Pawn), pos)
    || undefined(b, Piece(Black, Knight), pos)
    || undefined(b, Piece(Black, Bishop), pos)
    || undefined(b, Piece(Black, Rook), pos)
    || undefined(b, Piece(Black, Queen), pos)
    || undefined(b, Piece(Black, King), pos)
  }

  /** `is_attacked_by_white_pieces`: the OR of the six white per-piece tests. */
  function AttackedByWhitePieces(b: Bitboards, pos: bv64, undefined: Undefined): (r: bool)
    requires pos < 64
    ensures r <==> exists k: Kind :: AttackedByPiece(b, Piece(White, k), pos, undefined)
  {
    SideAttackCases(b, White, pos, undefined);
    AttackedByWhitePawns(b, pos)
    || undefined(b, Piece(White, Knight), pos)
    || undefined(b, Piece(White, Bishop), pos)
    || undefined(b, Piece(White, Rook), pos)
    || undefined(b, Piece(White, Queen), pos)
    || undefined(b, Piece(White, King), pos)
  }

  /** Splits "some piece attacks `pos`" into the two sides. */
  lemma PieceAttackCases(b: Bitboards, pos: bv64, undefined: Undefined)
    requires pos < 64
    ensures (exists p: Piece :: AttackedByPiece(b, p, pos, undefined))
            <==> ((exists k: Kind :: AttackedByPiece(b, Piece(White, k), pos, undefined))
                  || (exists k: Kind :: AttackedByPiece(b, Piece(Black, k), pos, undefined)))
  {
    if exists p: Piece :: AttackedByPiece(b, p, pos, undefined) {
      var p: Piece :| AttackedByPiece(b, p, pos, undefined);
      if p.side == White {
        assert AttackedByPiece(b, Piece(White, p.kind), pos, undefined);
      } else {
        assert AttackedByPiece(b, Piece(Black, p.kind), pos, undefined);
      }
    }
  }

  /** `is_attacked`: some piece of either side attacks `pos`. */
  function IsAttacked(b: Bitboards, pos: bv64, undefined: Undefined): (r: bool)
    requires pos < 64
    ensures r <==> exists p: Piece :: AttackedByPiece(b, p, pos, undefined)
  {
    PieceAttackCases(b, pos, undefined);
    AttackedByWhitePieces(b, pos, undefined) || AttackedByBlackPieces(b, pos, undefined)
  }

  /** `is_in_check`: a placeholder in the source that answers "no" for
      every position. */
  function IsInCheck(b: Bitboards): (r: bool)
    ensures !r
  {
    false
  }

  // ---------------------------------------------------------------------
  // Properties.

  /** No square of the first two ranks is ever reported attacked by white
      pawns, whatever the masks hold. */
  lemma WhitePawnsNeverAttackLowRanks(b: Bitboards, pos: bv64)
    requires pos < 16
    ensures !AttackedByWhitePawns(b, pos)
  {
  }

  /** In the initial arrangement no square is reported attacked by white
      pawns: the only white pawns stand below square 16. */
  lemma NewNoWhitePawnAttacks(pos: bv64)
    requires pos < 64
    ensures !AttackedByWhitePawns(New(), pos)
  {
    NewPlacement(Piece(White, Pawn), pos);
  }

  /** The aggregate only grows when the undefined tests answer "yes" more
      often. */
  lemma IsAttackedMonotone(b: Bitboards, pos: bv64, u: Undefined, v: Undefined)
    requires pos < 64
    requires forall p: Piece :: u(b, p, pos) ==> v(b, p, pos)
    ensures IsAttacked(b, pos, u) ==> IsAttacked(b, pos, v)
  {
    if IsAttacked(b, pos, u) {
      var p: Piece :| AttackedByPiece(b, p, pos, u);
      assert AttackedByPiece(b, p, pos, v);
    }
  }

  /** With every undefined test answering "no", a square is attacked exactly
      when a white pawn stands on it, from square 16 on. */
  lemma IsAttackedByPawnsOnly(b: Bitboards, pos: bv64, u: Undefined)
    requires pos < 64
    requires forall p: Piece :: !u(b, p, pos)
    ensures IsAttacked(b, pos, u) <==> 16 <= pos && Bit(b.whitePawns, pos)
  {
    if IsAttacked(b, pos, u) {
      var p: Piece :| AttackedByPiece(b, p, pos, u);
    }
  }
}
