/** The text `print_board` writes: a border, one line per rank from the
    eighth down to the first, a border, and the file letters. Each line is
    returned as a string instead of being written to standard output. */
module Render {
  import opened Position

  datatype Option<T> = None | Some(value: T)

  /** The character the source's constants assign to each piece: upper case
      for white, lower case for black. */
  function PieceChar(p: Piece): (c: char)
  {
    match p
    case Piece(White, Pawn) => 'P'
    case Piece(White, Knight) => 'N'
    case Piece(White, Bishop) => 'B'
    case Piece(White, Rook) => 'R'
    case Piece(White, Queen) => 'Q'
    case Piece(White, King) => 'K'
    case Piece(Black, Pawn) => 'p'
    case Piece(Black, Knight) => 'n'
    case Piece(Black, Bishop) => 'b'
    case Piece(Black, Rook) => 'r'
    case Piece(Black, Queen) => 'q'
    case Piece(Black, King) => 'k'
  }

  /** Reads a board character back as the piece it stands for. */
  function CharPiece(c: char): (r: Option<Piece>)
  {
    match c
    case 'P' => Some(Piece(White, Pawn))
    case 'N' => Some(Piece(White, Knight))
    case 'B' => Some(Piece(White, Bishop))
    case 'R' => Some(Piece(White, Rook))
    case 'Q' => Some(Piece(White, Queen))
    case 'K' => Some(Piece(White, King))
    case 'p' => Some(Piece(Black, Pawn))
    case 'n' => Some(Piece(Black, Knight))
    case 'b' => Some(Piece(Black, Bishop))
    case 'r' => Some(Piece(Black, Rook))
    case 'q' => Some(Piece(Black, Queen))
    case 'k' => Some(Piece(Black, King))
    case _ => None
  }

  /** The twelve characters are distinct, none is the empty-square dot, and
      the case of a character tells its side. */
  lemma PieceCharRoundTrip(p: Piece, c: char)
    ensures CharPiece(PieceChar(p)) == Some(p)
    ensures CharPiece(c) == Some(p) <==> c == PieceChar(p)
    ensures CharPiece('.') == None
    ensures p.side == White <==> 'A' <= PieceChar(p) <= 'Z'
  {
  }

  // ---------------------------------------------------------------------
  // One square.

  /** The piece `print_board` draws on square `pos`: its if-chain tries the
      masks from the white pawns to the black king and stops at the first
      one holding the bit. */
  function Occupant(b: Bitboards, pos: bv64): (r: Option<Piece>)
    requires pos < 64
    ensures r.Some? ==> Bit(Board(b, r.value), pos)
  {
    if Bit(b.whitePawns, pos) then Some(Piece(White, Pawn))
    else if Bit(b.whiteKnights, pos) then Some(Piece(White, Knight))
    else if Bit(b.whiteBishops, pos) then Some(Piece(White, Bishop))
    else if Bit(b.whiteRooks, pos) then Some(Piece(White, Rook))
    else if Bit(b.whiteQueens, pos) then Some(Piece(White, Queen))
    else if Bit(b.whiteKing, pos) then Some(Piece(White, King))
    else if Bit(b.blackPawns, pos) then Some(Piece(Black, Pawn))
    else if Bit(b.blackKnights, pos) then Some(Piece(Black, Knight))
    else if Bit(b.blackBishops, pos) then Some(Piece(Black, Bishop))
    else if Bit(b.blackRooks, pos) then Some(Piece(Black, Rook))
    else if Bit(b.blackQueens, pos) then Some(Piece(Black, Queen))
    else if Bit(b.blackKing, pos) then Some(Piece(Black, King))
    else None
  }

  /** Every piece on the square comes no earlier in `Pieces` than the one
      drawn. */
  lemma OccupantPrecedes(b: Bitboards, q: Piece, pos: bv64)
    requires pos < 64 && Bit(Board(b, q), pos)
    ensures Occupant(b, pos).Some? && PieceIndex(Occupant(b, pos).value) <= PieceIndex(q)
  {
  }

  /** The drawn piece is exactly the first piece, in the order of `Pieces`,
      standing on the square. */
  lemma OccupantIsFirst(b: Bitboards, p: Piece, pos: bv64)
    requires pos < 64
    ensures Occupant(b, pos) == Some(p)
            <==> Bit(Board(b, p), pos)
                 && forall q: Piece :: Bit(Board(b, q), pos) ==> PieceIndex(p) <= PieceIndex(q)
  {
    if Occupant(b, pos) == Some(p) {
      forall q: Piece | Bit(Board(b, q), pos)
        ensures PieceIndex(p) <= PieceIndex(q)
      {
        OccupantPrecedes(b, q, pos);
      }
    }
    if Bit(Board(b, p), pos) && forall q: Piece :: Bit(Board(b, q), pos) ==> PieceIndex(p) <= PieceIndex(q) {
      OccupantPrecedes(b, p, pos);
      var r := Occupant(b, pos).value;
      assert PieceIndex(p) <= PieceIndex(r);
      assert Pieces[PieceIndex(r)] == r && Pieces[PieceIndex(p)] == p;
    }
  }

  /** A square is left empty exactly when no mask holds its bit. */
  lemma OccupantEmpty(b: Bitboards, pos: bv64)
    requires pos < 64
    ensures Occupant(b, pos).None? <==> !IsOccupied(b, pos)
  {
    if !Occupant(b, pos).None? {
      assert Bit(Board(b, Occupant(b, pos).value), pos);
    } else {
      SomeBoardBit(b, pos);
    }
  }

  /** In a position where no two masks share a bit, the piece on a square is
      the one drawn. */
  lemma OccupantWellFormed(b: Bitboards, p: Piece, pos: bv64)
    requires WellFormed(b)
    requires pos < 64 && Bit(Board(b, p), pos)
    ensures Occupant(b, pos) == Some(p)
  {
    OccupantPrecedes(b, p, pos);
  }

  /** The character drawn for square `pos`: the dot when it is empty. */
  function SquareChar(b: Bitboards, pos: bv64): char
    requires pos < 64
  {
    match Occupant(b, pos)
    case None => '.'
    case Some(p) => PieceChar(p)
  }

  /** The dot is drawn exactly on the empty squares, and reading the drawn
      character back gives the drawn piece. */
  lemma SquareCharMeaning(b: Bitboards, pos: bv64)
    requires pos < 64
    ensures SquareChar(b, pos) == '.' <==> Occupant(b, pos).None?
    ensures CharPiece(SquareChar(b, pos)) == Occupant(b, pos)
  {
    var o := Occupant(b, pos);
    if o.Some? {
      PieceCharRoundTrip(o.value, '.');
    }
  }

  /** The squares of the initial arrangement are drawn with the piece `New`
      places there, and the middle four ranks with dots. */
  lemma NewOccupant(pos: bv64)
    requires pos < 64
    ensures Occupant(New(), pos) == if pos < 16 || 48 <= pos then Some(InitialOccupant(pos)) else None
  {
    NewOccupancy(pos);
    OccupantEmpty(New(), pos);
    if pos < 16 || 48 <= pos {
      InitiallyOnUnique(InitialOccupant(pos), pos);
      NewPlacement(InitialOccupant(pos), pos);
      NewWellFormed();
      OccupantWellFormed(New(), InitialOccupant(pos), pos);
    }
  }

  /** As `New` places them, the kings are drawn on file d and the queens on
      file e: `K` and `Q` on the first rank, `k` and `q` on the eighth. */
  lemma NewRoyalsDrawn()
    ensures SquareChar(New(), SquareOf(3, 0)) == 'K' && SquareChar(New(), SquareOf(4, 0)) == 'Q'
    ensures SquareChar(New(), SquareOf(3, 7)) == 'k' && SquareChar(New(), SquareOf(4, 7)) == 'q'
  {
    NewOccupant(SquareOf(3, 0));
    NewOccupant(SquareOf(4, 0));
    NewOccupant(SquareOf(3, 7));
    NewOccupant(SquareOf(4, 7));
  }

  // ---------------------------------------------------------------------
  // The whole board.

  /** The top and bottom border. */
  const Border: string := "+-----------------+"

  /** The line of file letters under the board. */
  const FileLetters: string := "    a b c d e f g h"

  /** The rank number, from 1 to 8, printed at the head of the line for
      `rank`. */
  function RankLabel(rank: nat): (c: char)
    requires rank < 8
  {
    ('1' as int + rank) as char
  }

  /** The characters of the eight squares of `rank`, file a first. */
  function Row(b: Bitboards, rank: nat): (row: seq<char>)
    requires rank < 8
  {
    seq(8, file requires 0 <= file < 8 => SquareChar(b, SquareOf(file, rank)))
  }

  /** The first `n` characters of `row`, each preceded by a space. */
  function Cells(row: seq<char>, n: nat): string
    requires n <= |row|
  {
    if n == 0 then [] else Cells(row, n - 1) + [' ', row[n - 1]]
  }

  /** The line for `rank`: its number, a bar, the eight squares, a bar. */
  function RankLine(b: Bitboards, rank: nat): string
    requires rank < 8
  {
    [RankLabel(rank), ' ', '|'] + Cells(Row(b, rank), 8) + ['|']
  }

  /** The lines for the eighth rank down to rank `low`. */
  function RankLines(b: Bitboards, low: nat): seq<string>
    requires low <= 8
    decreases 8 - low
  {
    if low == 8 then [] else RankLines(b, low + 1) + [RankLine(b, low)]
  }

  /** Everything `print_board` writes, one string per line. */
  function BoardText(b: Bitboards): seq<string>
  {
    [Border] + RankLines(b, 0) + [Border, FileLetters]
  }

  /** The rank labels are the digits 1 to 8, distinct per rank. */
  lemma RankLabelDigit(rank: nat, other: nat)
    requires rank < 8 && other < 8
    ensures '1' <= RankLabel(rank) <= '8'
    ensures RankLabel(rank) == RankLabel(other) <==> rank == other
  {
  }

  /** Each character of `row` takes two places: a space, then itself. */
  lemma {:induction false} CellsLayout(row: seq<char>, n: nat)
    requires n <= |row|
    ensures |Cells(row, n)| == 2 * n
    ensures forall i :: 0 <= i < n ==> Cells(row, n)[2 * i] == ' ' && Cells(row, n)[2 * i + 1] == row[i]
  {
    if n > 0 {
      CellsLayout(row, n - 1);
    }
  }

  /** A rank's line: its number, a space, a bar, the squares of files a to h
      in columns 4, 6, ..., 18, and a closing bar. */
  lemma RankLineLayout(b: Bitboards, rank: nat)
    requires rank < 8
    ensures |RankLine(b, rank)| == 20
    ensures RankLine(b, rank)[..3] == [RankLabel(rank), ' ', '|']
    ensures RankLine(b, rank)[19] == '|'
    ensures forall file :: 0 <= file < 8 ==>
              RankLine(b, rank)[3 + 2 * file] == ' ' && RankLine(b, rank)[4 + 2 * file] == Row(b, rank)[file]
  {
    CellsLayout(Row(b, rank), 8);
  }

  /** The lines for ranks 7 down to `low`, the highest first. */
  lemma {:induction false} RankLinesLayout(b: Bitboards, low: nat)
    requires low <= 8
    ensures |RankLines(b, low)| == 8 - low
    ensures forall rank :: low <= rank < 8 ==> RankLines(b, low)[7 - rank] == RankLine(b, rank)
    decreases 8 - low
  {
    if low < 8 {
      RankLinesLayout(b, low + 1);
    }
  }

  /** The printed board is eleven lines: a border, the eighth rank down to
      the first, a border, and the file letters. */
  lemma BoardTextLayout(b: Bitboards)
    ensures |BoardText(b)| == 11
    ensures BoardText(b)[0] == Border && BoardText(b)[9] == Border && BoardText(b)[10] == FileLetters
    ensures forall rank :: 0 <= rank < 8 ==> BoardText(b)[8 - rank] == RankLine(b, rank)
  {
    var ranks := RankLines(b, 0);
    RankLinesLayout(b, 0);
    assert BoardText(b) == [Border] + ranks + [Border, FileLetters];
    forall rank | 0 <= rank < 8
      ensures BoardText(b)[8 - rank] == RankLine(b, rank)
    {
      assert BoardText(b)[8 - rank] == ranks[7 - rank];
    }
  }

  /** The if-chain `print_board` runs on square `pos`. */
  method DrawSquare(b: Bitboards, pos: bv64) returns (pieceChar: char)
    requires pos < 64
    ensures pieceChar == SquareChar(b, pos)
  {
    pieceChar := '.';
    if Bit(b.whitePawns, pos) {
      pieceChar := PieceChar(Piece(White, Pawn));
    } else if Bit(b.whiteKnights, pos) {
      pieceChar := PieceChar(Piece(White, Knight));
    } else if Bit(b.whiteBishops, pos) {
      pieceChar := PieceChar(Piece(White, Bishop));
    } else if Bit(b.whiteRooks, pos) {
      pieceChar := PieceChar(Piece(White, Rook));
    } else if Bit(b.whiteQueens, pos) {
      pieceChar := PieceChar(Piece(White, Queen));
    } else if Bit(b.whiteKing, pos) {
      pieceChar := PieceChar(Piece(White, King));
    } else if Bit(b.blackPawns, pos) {
      pieceChar := PieceChar(Piece(Black, Pawn));
    } else if Bit(b.blackKnights, pos) {
      pieceChar := PieceChar(Piece(Black, Knight));
    } else if Bit(b.blackBishops, pos) {
      pieceChar := PieceChar(Piece(Black, Bishop));
    } else if Bit(b.blackRooks, pos) {
      pieceChar := PieceChar(Piece(Black, Rook));
    } else if Bit(b.blackQueens, pos) {
      pieceChar := PieceChar(Piece(Black, Queen));
    } else if Bit(b.blackKing, pos) {
      pieceChar := PieceChar(Piece(Black, King));
    }
  }

  /** The inner loop of `print_board`: the line for `rank`, pushed one
      character at a time. */
  method DrawRank(b: Bitboards, rank: nat) returns (rankStr: string)
    requires rank < 8
    ensures rankStr == RankLine(b, rank)
  {
    rankStr := [RankLabel(rank), ' ', '|'];
    var file := 0;
    while file < 8
      invariant file <= 8
      invariant rankStr == [RankLabel(rank), ' ', '|'] + Cells(Row(b, rank), file)
    {
      var pos := SquareOf(file, rank);
      var pieceChar := DrawSquare(b, pos);
      rankStr := rankStr + [' '];
      rankStr := rankStr + [pieceChar];
      file := file + 1;
    }
    rankStr := rankStr + ['|'];
  }

  /** `print_board`: the border, the ranks from the eighth down, the border
      and the file letters, collected instead of printed. */
  method PrintBoard(b: Bitboards) returns (lines: seq<string>)
    ensures lines == BoardText(b)
  {
    lines := [Border];
    var rank := 8;
    while rank > 0
      invariant rank <= 8
      invariant lines == [Border] + RankLines(b, rank)
    {
      rank := rank - 1;
      var rankStr := DrawRank(b, rank);
      lines := lines + [rankStr];
    }
    lines := lines + [Border, FileLetters];
  }
}
