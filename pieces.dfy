// Colours, piece types, piece letters and castling rights
// (include/constants.h, include/utils.h).
module Pieces {

  /** `Color`: the side a piece or a move belongs to. */
  datatype Color = White | Black

  /** `PieceType`, with `NoPiece` for `PieceType::NONE`. */
  datatype PieceType = Pawn | Knight | Bishop | Rook | Queen | King | NoPiece

  /** `to_int(Color)`. */
  function ColorIndex(c: Color): (i: int)
    ensures i == 0 <==> c == White
    ensures i == 1 <==> c == Black
  {
    match c
    case White => 0
    case Black => 1
  }

  /** `to_int(PieceType)`: PAWN = 0 .. KING = 5, NONE = 6. */
  function PieceIndex(p: PieceType): (i: int)
    ensures 0 <= i <= 6
    ensures i == 6 <==> p == NoPiece
  {
    match p
    case Pawn => 0
    case Knight => 1
    case Bishop => 2
    case Rook => 3
    case Queen => 4
    case King => 5
    case NoPiece => 6
  }

  /** The piece type with a given index. */
  function PieceOfIndex(i: int): (p: PieceType)
    requires 0 <= i <= 6
    ensures PieceIndex(p) == i
  {
    if i == 0 then Pawn else if i == 1 then Knight else if i == 2 then Bishop
    else if i == 3 then Rook else if i == 4 then Queen else if i == 5 then King
    else NoPiece
  }

  lemma PieceIndexInjective(p: PieceType, q: PieceType)
    ensures PieceIndex(p) == PieceIndex(q) ==> p == q
  {
  }

  /** `PIECE_VALUES[color][piece]`: positive for white, negative for black. */
  function PieceValue(c: Color, p: PieceType): (v: int)
    requires p != NoPiece
    ensures c == White ==> v > 0
    ensures c == Black ==> v < 0
  {
    var w := match p
      case Pawn => 100
      case Knight => 320
      case Bishop => 330
      case Rook => 500
      case Queen => 900
      case King => 20000;
    if c == White then w else -w
  }

  /** `PIECE_VALUES[WHITE][p]`: the white row, which move ordering and the exchange read for both sides. */
  function WhiteValue(p: PieceType): (v: int)
    requires p != NoPiece
    ensures 100 <= v <= 20000
  {
    PieceValue(White, p)
  }

  /** The two rows of `PIECE_VALUES` are negatives of each other. */
  lemma PieceValueMirrored(p: PieceType)
    requires p != NoPiece
    ensures PieceValue(Black, p) == -PieceValue(White, p)
  {
  }

  /** The other colour. */
  function Opponent(c: Color): (o: Color)
    ensures o != c
  {
    if c == White then Black else White
  }

  /** `PIECE_CHAR_LIST = "PNBRQK."`. */
  const PIECE_CHAR_LIST: string := "PNBRQK."

  predicate IsUpper(c: char) { 'A' <= c <= 'Z' }
  predicate IsLower(c: char) { 'a' <= c <= 'z' }

  /** C `tolower`: only the letters 'A' .. 'Z' change. */
  function ToLower(c: char): (r: char)
    ensures IsUpper(c) ==> IsLower(r)
    ensures !IsUpper(c) ==> r == c
  {
    if IsUpper(c) then (c as int + 32) as char else c
  }

  /** C `toupper`: only the letters 'a' .. 'z' change. */
  function ToUpper(c: char): (r: char)
    ensures IsLower(c) ==> IsUpper(r)
    ensures !IsLower(c) ==> r == c
  {
    if IsLower(c) then (c as int - 32) as char else c
  }

  /** `get_piece_char`: the letter of the piece, lower-cased for black. */
  function PieceChar(p: PieceType, c: Color): (ch: char)
    ensures ch == '.' <==> p == NoPiece
    ensures p != NoPiece && c == White ==> IsUpper(ch) && !IsLower(ch)
    ensures p != NoPiece && c == Black ==> IsLower(ch) && !IsUpper(ch)
  {
    var upper := PIECE_CHAR_LIST[PieceIndex(p)];
    assert p != NoPiece ==> IsUpper(upper);
    if c == White then upper else ToLower(upper)
  }

  /** The black letter is the white one lowered. */
  lemma PieceCharCase(p: PieceType)
    ensures PieceChar(p, Black) == ToLower(PieceChar(p, White))
  {
  }

  /** `PIECE_TYPE_MAP.at(ch)`; `at` throws for a character not in the map. */
  function PieceTypeOf(ch: char): (r: Option<PieceType>)
    ensures r == None <==> ch !in "PNBRQK.pnbrqk"
    ensures r.Some? ==> ch == PieceChar(r.value, White) || ch == PieceChar(r.value, Black)
  {
    match ToUpper(ch)
    case 'P' => Some(Pawn)
    case 'N' => Some(Knight)
    case 'B' => Some(Bishop)
    case 'R' => Some(Rook)
    case 'Q' => Some(Queen)
    case 'K' => Some(King)
    case '.' => if ch == '.' then Some(NoPiece) else None
    case _ => None
  }

  /** The letter of a piece reads back as the same piece, for either colour. */
  lemma PieceCharRoundTrip(p: PieceType, c: Color)
    ensures PieceTypeOf(PieceChar(p, c)) == Some(p)
  {
  }

  datatype Option<T> = None | Some(value: T)

  // ---------------------------------------------------------------
  // Castling rights. `src/board.cpp` and `Move.h` keep them as a "KQkq"
  // string; `include/constants.h` keeps them as a 4-bit mask. Both stand for
  // a set of the four rights.
  // ---------------------------------------------------------------

  datatype Right = WhiteKingside | WhiteQueenside | BlackKingside | BlackQueenside

  /** The letter of a right in the FEN string. */
  function RightChar(r: Right): (ch: char)
    ensures ch in "KQkq"
  {
    match r
    case WhiteKingside => 'K'
    case WhiteQueenside => 'Q'
    case BlackKingside => 'k'
    case BlackQueenside => 'q'
  }

  lemma RightCharInjective(r: Right, s: Right)
    ensures RightChar(r) == RightChar(s) ==> r == s
  {
  }

  /** The bit of a right in the `uint8_t` mask (WHITE_KING_CASTLE = 1 << 3 ...). */
  function RightBit(r: Right): (b: int)
    ensures b == 1 || b == 2 || b == 4 || b == 8
  {
    match r
    case WhiteKingside => 8
    case WhiteQueenside => 4
    case BlackKingside => 2
    case BlackQueenside => 1
  }

  /** The rights a castling string grants: those whose letter occurs in it. */
  function RightsOf(s: string): (rights: set<Right>)
    ensures forall r :: r in rights <==> RightChar(r) in s
  {
    set r: Right | RightChar(r) in s
  }

  /** The two rights of one colour. */
  function RightsOfColor(c: Color): (rights: set<Right>)
    ensures |rights| == 2
    ensures forall r :: r in rights ==> (IsUpper(RightChar(r)) <==> c == White)
    ensures forall r :: (IsUpper(RightChar(r)) <==> c == White) ==> r in rights
  {
    if c == White then {WhiteKingside, WhiteQueenside} else {BlackKingside, BlackQueenside}
  }
}
