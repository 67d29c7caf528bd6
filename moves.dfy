// The move value (include/Move.h and the older Move.h that src/board.cpp
// uses) and the fixed 256-slot move buffer.
module Moves {
  import opened Pieces

  /** A square index, or -1 for "no square". */
  type SquareOrNone = x: int | -1 <= x < 64

  /**
   * `Move`. The first eight fields are those of include/Move.h; the last two are
   * the undo snapshot of Move.h: the castling-rights string and en-passant
   * square of the position the move was generated in.
   */
  datatype Move = Move(
    from: SquareOrNone,
    to: SquareOrNone,
    moved: PieceType,
    captured: PieceType,
    promotion: PieceType,
    color: Color,
    isCastle: bool,
    isEnPassant: bool,
    oldRights: string,
    oldEnPassant: int)

  /** The default constructor: the null move. */
  function NullMove(): (m: Move)
    ensures m.from == -1 && m.to == -1
    ensures m.moved == NoPiece && m.captured == NoPiece && m.promotion == NoPiece
    ensures m.color == White && !m.isCastle && !m.isEnPassant
    ensures m.oldRights == "" && m.oldEnPassant == -1
  {
    Move(-1, -1, NoPiece, NoPiece, NoPiece, White, false, false, "", -1)
  }

  /**
   * The full constructor of Move.h, in its argument order: from, to, moved,
   * colour, captured, old castling rights, old en-passant square, promotion,
   * castle flag, en-passant flag.
   */
  function MakeMove(from: SquareOrNone, to: SquareOrNone, moved: PieceType, color: Color,
                    captured: PieceType, oldRights: string, oldEnPassant: int,
                    promotion: PieceType, isCastle: bool, isEnPassant: bool): (m: Move)
    ensures m.from == from && m.to == to && m.moved == moved && m.color == color
    ensures m.captured == captured && m.promotion == promotion
    ensures m.isCastle == isCastle && m.isEnPassant == isEnPassant
    ensures m.oldRights == oldRights && m.oldEnPassant == oldEnPassant
  {
    Move(from, to, moved, captured, promotion, color, isCastle, isEnPassant, oldRights, oldEnPassant)
  }

  /** `is_double_pawn_move`. */
  function IsDoublePawnMove(m: Move): (double: bool)
    ensures double ==> m.moved == Pawn
    ensures double && m.from != -1 && m.to != -1 ==>
              m.from % 8 == m.to % 8 && (m.to / 8 - m.from / 8 == 2 || m.from / 8 - m.to / 8 == 2)
  {
    m.moved == Pawn && (m.to - m.from == 16 || m.from - m.to == 16)
  }

  /** `get_capture_square`: behind the destination for en passant, else the destination. */
  function CaptureSquare(m: Move): (sq: int)
    ensures !m.isEnPassant ==> sq == m.to
    ensures m.isEnPassant && m.color == White ==> sq == m.to - 8
    ensures m.isEnPassant && m.color == Black ==> sq == m.to + 8
  {
    if m.isEnPassant then (if m.color == White then m.to - 8 else m.to + 8) else m.to
  }

  /** `get_capture_color`: the side opposite to the mover. */
  function CaptureColor(m: Move): (c: Color)
    ensures c != m.color
  {
    if m.color == White then Black else White
  }

  /** `operator==`: from, to and promotion only. */
  function SameMove(a: Move, b: Move): (same: bool)
    ensures a == b ==> same
    ensures same ==> IsReal(a) == IsReal(b)
  {
    a.from == b.from && a.to == b.to && a.promotion == b.promotion
  }

  /** `operator==` is an equivalence relation. */
  lemma SameMoveEquivalence(a: Move, b: Move, c: Move)
    ensures SameMove(a, a)
    ensures SameMove(a, b) ==> SameMove(b, a)
    ensures SameMove(a, b) && SameMove(b, c) ==> SameMove(a, c)
  {
  }

  /** `operator==` ignores the captured piece, the colour, the flags and the snapshot. */
  lemma SameMoveIgnoresRest(a: Move, moved: PieceType, captured: PieceType, color: Color,
                            isCastle: bool, isEnPassant: bool, oldRights: string, oldEnPassant: int)
    ensures SameMove(a, a.(moved := moved, captured := captured, color := color, isCastle := isCastle,
                            isEnPassant := isEnPassant, oldRights := oldRights, oldEnPassant := oldEnPassant))
  {
  }

  /** Both squares are set: anything but a default-constructed move. */
  predicate IsReal(m: Move)
  {
    m.from != -1 && m.to != -1
  }

  /** The 16-bit code of the null move, `1u << 15`. */
  const NULL_CODE: int := 0x8000

  /**
   * `get_int`: from in bits 0-5, to in bits 6-11 and the promotion type in
   * bits 12-15; `1 << 15` when either square is -1.
   */
  function GetInt(m: Move): (code: int)
    ensures 0 <= code < 0x10000
    ensures !IsReal(m) <==> code == NULL_CODE
  {
    if !IsReal(m) then NULL_CODE
    else m.from + m.to * 64 + (PieceIndex(m.promotion) % 16) * 4096
  }

  /** The fields of a real move can be read back from its code; bit 15 stays clear. */
  lemma GetIntFields(m: Move)
    requires IsReal(m)
    ensures GetInt(m) < 0x8000
    ensures GetInt(m) % 64 == m.from
    ensures GetInt(m) / 64 % 64 == m.to
    ensures GetInt(m) / 4096 == PieceIndex(m.promotion)
  {
    var c := GetInt(m);
    assert c == m.from + 64 * (m.to + 64 * PieceIndex(m.promotion));
  }

  /** Equal moves have equal codes, and two real moves with one code are equal. */
  lemma GetIntRespectsEquality(a: Move, b: Move)
    ensures SameMove(a, b) ==> GetInt(a) == GetInt(b)
    ensures IsReal(a) && IsReal(b) && GetInt(a) == GetInt(b) ==> SameMove(a, b)
  {
    if IsReal(a) && IsReal(b) && GetInt(a) == GetInt(b) {
      GetIntFields(a);
      GetIntFields(b);
      PieceIndexInjective(a.promotion, b.promotion);
    }
  }

  /** The capacity of `MoveList`. */
  const MOVE_LIST_CAPACITY: int := 256

  /** `MoveList`: a fixed buffer of 256 moves and a fill count. */
  class MoveList {
    var moves: array<Move>
    var count: int

    ghost predicate Valid()
      reads this
    {
      moves.Length == MOVE_LIST_CAPACITY && 0 <= count <= MOVE_LIST_CAPACITY
    }

    /** The moves in use, `begin() .. end()`. */
    function Contents(): (s: seq<Move>)
      requires Valid()
      reads this, moves
      ensures |s| == count
    {
      moves[..count]
    }

    constructor()
      ensures Valid() && fresh(moves) && count == 0
    {
      moves := new Move[MOVE_LIST_CAPACITY](_ => NullMove());
      count := 0;
    }

    /** `push_back`: writes slot `count` and advances it. The source checks no bound. */
    method PushBack(m: Move)
      requires Valid() && count < MOVE_LIST_CAPACITY
      modifies this, moves
      ensures Valid() && moves == old(moves)
      ensures count == old(count) + 1
      ensures moves[..] == old(moves[..])[old(count) := m]
      ensures Contents() == old(Contents()) + [m]
    {
      moves[count] := m;
      count := count + 1;
    }

    /** `size()`. */
    function Size(): (n: int)
      requires Valid()
      reads this
      ensures 0 <= n <= MOVE_LIST_CAPACITY
    {
      count
    }

    /** `empty()`: no move is in use. */
    function Empty(): (e: bool)
      requires Valid()
      reads this, moves
      ensures e <==> Contents() == []
    {
      count == 0
    }

    /** `clear()`: only the count is reset; the slots keep their moves. */
    method Clear()
      requires Valid()
      modifies this
      ensures Valid() && moves == old(moves) && count == 0
      ensures Contents() == []
    {
      count := 0;
    }

    /** `swap_items`: exchanges two slots of the buffer and changes nothing else. */
    method SwapItems(i: int, j: int)
      requires Valid() && 0 <= i < MOVE_LIST_CAPACITY && 0 <= j < MOVE_LIST_CAPACITY
      modifies moves
      ensures Valid()
      ensures moves[..] == old(moves[..])[i := old(moves[j])][j := old(moves[i])]
      ensures multiset(moves[..]) == multiset(old(moves[..]))
    {
      moves[i], moves[j] := moves[j], moves[i];
    }
  }
}
