// The board state of src/board.cpp as a value, and the incremental updates
// `make_move` / `undo_move` apply to it, as pure functions. The `Board` class
// (board.dfy) is proved to perform exactly these updates.
module Position {
  import opened Bits
  import opened Pieces
  import opened Moves
  import opened Zobrist

  /**
   * The fields of `Board` that `make_move` and `undo_move` touch:
   * `pieces[2][6]` flattened as `color * 6 + piece`, `color_pieces[2]`,
   * `all_pieces`, `square_to_piece_map[64]`, `turn`, the castling rights, the
   * en-passant square, `zobrist_hash` and `material_score`; plus the two move
   * counters read from the FEN.
   */
  datatype State = State(
    pieces: seq<Bitboard>,
    colors: seq<Bitboard>,
    all: Bitboard,
    pieceMap: seq<char>,
    turn: Color,
    rights: set<Right>,
    enPassant: int,
    hash: Word,
    material: int,
    halfMoves: int,
    moveCount: int)

  predicate Shaped(st: State)
  {
    |st.pieces| == 12 && |st.colors| == 2 && |st.pieceMap| == 64
  }

  /** Index of `pieces[color][piece]` in the flattened row. */
  function BoardIndex(c: Color, p: PieceType): (k: int)
    requires p != NoPiece
    ensures 0 <= k < 12 && k / 6 == ColorIndex(c) && k % 6 == PieceIndex(p)
  {
    ColorIndex(c) * 6 + PieceIndex(p)
  }

  // ---------------------------------------------------------------
  // Squares a move touches
  // ---------------------------------------------------------------

  /** `piece_reached`: the promotion piece if any, else the moved piece. */
  function Reached(m: Move): (p: PieceType)
    ensures m.promotion == NoPiece ==> p == m.moved
    ensures m.promotion != NoPiece ==> p == m.promotion
  {
    if m.promotion == NoPiece then m.moved else m.promotion
  }

  /** `king_side = to_square > from_square`. */
  predicate KingSide(m: Move)
  {
    m.to > m.from
  }

  /** The rook's square before castling: `to + 1` king side, `to - 2` queen side. */
  function OldRookSquare(m: Move): int
  {
    if KingSide(m) then m.to + 1 else m.to - 2
  }

  /** The rook's square after castling: `to - 1` king side, `to + 1` queen side. */
  function NewRookSquare(m: Move): int
  {
    if KingSide(m) then m.to - 1 else m.to + 1
  }

  predicate OnBoard(x: int) { 0 <= x < 64 }

  /**
   * What `make_move` needs of a move to stay inside its arrays: both squares
   * set, a real moved piece, and every derived square (capture square, rook
   * squares) on the board.
   */
  predicate Playable(m: Move)
  {
    && IsReal(m)
    && m.moved != NoPiece
    && ((m.captured != NoPiece || m.isEnPassant) ==> OnBoard(CaptureSquare(m)))
    && (m.isCastle ==> OnBoard(OldRookSquare(m)) && OnBoard(NewRookSquare(m)))
  }

  // ---------------------------------------------------------------
  // update_pieces / update_pieces_hash: the bits a move toggles
  // ---------------------------------------------------------------

  /** One toggle of one piece bit: `pieces[color][piece] ^= 1ULL << sq`. */
  datatype Change = Change(color: Color, piece: PieceType, sq: Square)

  predicate RealPieces(cs: seq<Change>)
  {
    forall i :: 0 <= i < |cs| ==> cs[i].piece != NoPiece
  }

  /**
   * The piece bits `update_pieces` toggles, in order: the moved piece off
   * `from`, the reached piece on `to`, the captured piece on the capture
   * square, and for castling the rook's old and new squares (one XOR with a
   * two-bit mask, the same as two single toggles since the squares differ).
   */
  function Changes(m: Move): (cs: seq<Change>)
    requires Playable(m)
    ensures RealPieces(cs)
  {
    MoverChanges(m) + CaptureChanges(m) + CastleChanges(m)
  }

  /** The moving piece leaves `from`; the same piece, or its promotion, arrives on `to`. */
  function MoverChanges(m: Move): (cs: seq<Change>)
    requires Playable(m)
    ensures RealPieces(cs)
  {
    [Change(m.color, m.moved, m.from), Change(m.color, Reached(m), m.to)]
  }

  /** The captured piece, on the square behind `to` for en passant. */
  function CaptureChanges(m: Move): (cs: seq<Change>)
    requires Playable(m)
    ensures RealPieces(cs)
  {
    if m.captured != NoPiece then [Change(CaptureColor(m), m.captured, CaptureSquare(m))] else []
  }

  /** The castling rook. */
  function CastleChanges(m: Move): (cs: seq<Change>)
    requires Playable(m)
    ensures RealPieces(cs)
  {
    if m.isCastle then [Change(m.color, Rook, OldRookSquare(m)), Change(m.color, Rook, NewRookSquare(m))] else []
  }

  /** The changes as toggles of `pieces`. */
  function PieceFlips(cs: seq<Change>): (ops: seq<Flip>)
    requires RealPieces(cs)
    ensures |ops| == |cs| && FlipsFit(ops, 12)
  {
    seq(|cs|, i requires 0 <= i < |cs| => Flip(BoardIndex(cs[i].color, cs[i].piece), cs[i].sq))
  }

  /** The changes as toggles of `color_pieces`. */
  function ColorFlips(cs: seq<Change>): (ops: seq<Flip>)
    ensures |ops| == |cs| && FlipsFit(ops, 2)
  {
    seq(|cs|, i requires 0 <= i < |cs| => Flip(ColorIndex(cs[i].color), cs[i].sq))
  }

  /** The changes as toggles of `all_pieces` (a row of one board). */
  function AllFlips(cs: seq<Change>): (ops: seq<Flip>)
    ensures |ops| == |cs| && FlipsFit(ops, 1)
  {
    seq(|cs|, i requires 0 <= i < |cs| => Flip(0, cs[i].sq))
  }

  /** `update_pieces`: the same toggles on the piece, colour and all boards. */
  function UpdatePieces(st: State, m: Move): (r: State)
    requires Shaped(st) && Playable(m)
    ensures Shaped(r)
  {
    var cs := Changes(m);
    st.(pieces := ApplyFlips(st.pieces, PieceFlips(cs)),
        colors := ApplyFlips(st.colors, ColorFlips(cs)),
        all := ApplyFlips([st.all], AllFlips(cs))[0])
  }

  /** `update_pieces_hash`: the piece key of every toggled bit, in the same order. */
  function UpdatePiecesHash(keys: Keys, st: State, m: Move): (r: State)
    requires Playable(m)
  {
    st.(hash := FlipKeys(keys, st.hash, PieceFlips(Changes(m))))
  }

  // ---------------------------------------------------------------
  // Rights, en passant, turn and their hash keys
  // ---------------------------------------------------------------

  /** C++ `%` on `int`: truncating, so the sign follows the dividend. */
  function CRem(a: int, b: int): int
    requires b > 0
  {
    if a >= 0 then a % b else -((-a) % b)
  }

  /** The castling keys of the rights held, XORed in the order K, Q, k, q. */
  function RightsWord(keys: Keys, rights: set<Right>): Word
  {
    var h0: Word := {};
    var h1 := if WhiteKingside in rights then Xor(h0, keys.castling(WhiteKingside)) else h0;
    var h2 := if WhiteQueenside in rights then Xor(h1, keys.castling(WhiteQueenside)) else h1;
    var h3 := if BlackKingside in rights then Xor(h2, keys.castling(BlackKingside)) else h2;
    if BlackQueenside in rights then Xor(h3, keys.castling(BlackQueenside)) else h3
  }

  /** The en-passant key of the file of `ep`, or nothing when `ep == -1`. */
  function EpWord(keys: Keys, ep: int): Word
  {
    if ep != -1 then keys.enPassant(CRem(ep, 8)) else {}
  }

  /** `XOR_hash_rights`: XOR the keys of the current rights and en-passant file. */
  function XorHashRights(keys: Keys, st: State): State
  {
    st.(hash := FlipBase(st.hash, RightsWord(keys, st.rights), EpWord(keys, st.enPassant)))
  }

  /** `h ^ r ^ e`, the word one `XOR_hash_rights` XORs in. */
  function FlipBase(h: Word, r: Word, e: Word): Word
  {
    Xor(Xor(h, r), e)
  }

  /** The colour a castling right belongs to. */
  function RightColor(r: Right): Color
  {
    if r == WhiteKingside || r == WhiteQueenside then White else Black
  }

  /** The rook's home square of a right: h1, a1, h8, a8. */
  function HomeSquare(r: Right): (sq: int)
    ensures sq == 7 || sq == 0 || sq == 63 || sq == 56
  {
    match r
    case WhiteKingside => 7
    case WhiteQueenside => 0
    case BlackKingside => 63
    case BlackQueenside => 56
  }

  /**
   * A move forfeits a right when its own king moves, or when it leaves or
   * lands on that right's rook square.
   */
  predicate Forfeits(m: Move, r: Right)
  {
    (m.moved == King && RightColor(r) == m.color) || m.from == HomeSquare(r) || m.to == HomeSquare(r)
  }

  /** The rights a move forfeits. */
  function LostRights(m: Move): (lost: set<Right>)
    ensures forall r :: r in lost <==> Forfeits(m, r)
  {
    set r: Right | Forfeits(m, r)
  }

  /** A king move forfeits both rights of its colour. */
  lemma KingMoveLosesBoth(m: Move)
    requires m.moved == King
    ensures RightsOfColor(m.color) <= LostRights(m)
  {
  }

  /** `remove_castling_right` when a condition holds. */
  function RemoveIf(s: string, cond: bool, ch: char): string
  {
    if cond then RemoveCastlingRight(s, ch) else s
  }

  /** The first block of `update_castle_rights`: a king move erases both letters of its colour. */
  function KingEdits(s: string, m: Move): string
  {
    var wk := m.moved == King && m.color == White;
    var bk := m.moved == King && m.color == Black;
    RemoveIf(RemoveIf(RemoveIf(RemoveIf(s, wk, 'K'), wk, 'Q'), bk, 'k'), bk, 'q')
  }

  /** One block of four tests of a square against the rook home squares 7, 0, 63, 56. */
  function SquareEdits(s: string, sq: int): string
  {
    RemoveIf(RemoveIf(RemoveIf(RemoveIf(s, sq == 7, 'K'), sq == 0, 'Q'), sq == 63, 'k'), sq == 56, 'q')
  }

  /**
   * `update_castle_rights` on the "KQkq" string, as written: the king's two
   * letters, then the letters of the rook squares left, then those of the
   * rook squares landed on.
   */
  function CastleRightsString(s: string, m: Move): string
  {
    SquareEdits(SquareEdits(KingEdits(s, m), m.from), m.to)
  }

  /** Erasing a right's letter, when `cond` holds, removes exactly that right. */
  lemma RemoveIfRights(s: string, cond: bool, r: Right)
    ensures RightsOf(RemoveIf(s, cond, RightChar(r))) == RightsOf(s) - (if cond then {r} else {})
  {
    forall q: Right ensures q in RightsOf(RemoveIf(s, cond, RightChar(r))) <==> q in RightsOf(s) - (if cond then {r} else {}) {
      RightCharInjective(q, r);
    }
  }

  lemma KingEditsRights(s: string, m: Move)
    ensures RightsOf(KingEdits(s, m)) == RightsOf(s) - set r: Right | m.moved == King && RightColor(r) == m.color
  {
    var wk := m.moved == King && m.color == White;
    var bk := m.moved == King && m.color == Black;
    var a1 := RemoveIf(s, wk, 'K');
    RemoveIfRights(s, wk, WhiteKingside);
    var a2 := RemoveIf(a1, wk, 'Q');
    RemoveIfRights(a1, wk, WhiteQueenside);
    var a3 := RemoveIf(a2, bk, 'k');
    RemoveIfRights(a2, bk, BlackKingside);
    RemoveIfRights(a3, bk, BlackQueenside);
  }

  lemma SquareEditsRights(s: string, sq: int)
    ensures RightsOf(SquareEdits(s, sq)) == RightsOf(s) - set r: Right | HomeSquare(r) == sq
  {
    var a1 := RemoveIf(s, sq == 7, 'K');
    RemoveIfRights(s, sq == 7, WhiteKingside);
    var a2 := RemoveIf(a1, sq == 0, 'Q');
    RemoveIfRights(a1, sq == 0, WhiteQueenside);
    var a3 := RemoveIf(a2, sq == 63, 'k');
    RemoveIfRights(a2, sq == 63, BlackKingside);
    RemoveIfRights(a3, sq == 56, BlackQueenside);
  }

  /** The string edits of `update_castle_rights` remove exactly the forfeited rights. */
  lemma CastleRightsStringAgrees(s: string, m: Move)
    ensures RightsOf(CastleRightsString(s, m)) == RightsOf(s) - LostRights(m)
  {
    var k := KingEdits(s, m);
    KingEditsRights(s, m);
    SquareEditsRights(k, m.from);
    SquareEditsRights(SquareEdits(k, m.from), m.to);
  }

  /** `update_castle_rights`: forfeit rights on `make`, restore the move's snapshot on undo. */
  function UpdateCastleRights(st: State, m: Move, undo: bool): State
  {
    if undo then st.(rights := RightsOf(m.oldRights)) else st.(rights := st.rights - LostRights(m))
  }

  /** The en-passant square `make_move` sets: behind the pawn after a double push, else -1. */
  function EnPassantAfter(m: Move): int
  {
    if IsDoublePawnMove(m) then (if m.color == White then m.to - 8 else m.to + 8) else -1
  }

  /** `update_en_passsant_rights`: `EnPassantAfter` on make, the move's snapshot on undo. */
  function UpdateEnPassant(st: State, m: Move, undo: bool): State
  {
    if undo then st.(enPassant := m.oldEnPassant) else st.(enPassant := EnPassantAfter(m))
  }

  /** `update_turn_rights`: flip the side to move and its hash key. */
  function UpdateTurn(keys: Keys, st: State): State
  {
    st.(turn := Opponent(st.turn), hash := Xor(st.hash, keys.blackToMove))
  }

  // ---------------------------------------------------------------
  // Piece map and material
  // ---------------------------------------------------------------

  /** The `make` half of `update_piece_map`. */
  function MapAfterMake(pm: seq<char>, m: Move): (r: seq<char>)
    requires |pm| == 64 && Playable(m)
    ensures |r| == 64
  {
    var p1 := pm[m.from := '.'][m.to := PieceChar(Reached(m), m.color)];
    var p2 := if m.isEnPassant then p1[CaptureSquare(m) := '.'] else p1;
    if m.isCastle then p2[OldRookSquare(m) := '.'][NewRookSquare(m) := PieceChar(Rook, m.color)] else p2
  }

  /** The `undo` half of `update_piece_map`. */
  function MapAfterUndo(pm: seq<char>, m: Move): (r: seq<char>)
    requires |pm| == 64 && Playable(m)
    ensures |r| == 64
  {
    var p1 := pm[m.from := PieceChar(m.moved, m.color)][m.to := '.'];
    var p2 := if m.captured != NoPiece then p1[CaptureSquare(m) := PieceChar(m.captured, CaptureColor(m))] else p1;
    if m.isCastle then p2[OldRookSquare(m) := PieceChar(Rook, m.color)][NewRookSquare(m) := '.'] else p2
  }

  /** `update_piece_map`. */
  function UpdatePieceMap(st: State, m: Move, undo: bool): (r: State)
    requires Shaped(st) && Playable(m)
    ensures Shaped(r)
  {
    if undo then st.(pieceMap := MapAfterUndo(st.pieceMap, m)) else st.(pieceMap := MapAfterMake(st.pieceMap, m))
  }

  /**
   * `update_material_score`: with `weight` -1 on make and +1 on undo, the
   * capture adds `weight * value(captured)` and a promotion subtracts
   * `weight * (value(promotion) - value(pawn))`.
   */
  function UpdateMaterial(st: State, m: Move, undo: bool): State
  {
    var weight := if undo then 1 else -1;
    var s1 := if m.captured != NoPiece then st.material + weight * PieceValue(CaptureColor(m), m.captured) else st.material;
    var s2 := if m.promotion != NoPiece
              then s1 - weight * PieceValue(m.color, m.promotion) + weight * PieceValue(m.color, Pawn)
              else s1;
    st.(material := s2)
  }

  /** What a move is worth to white: the captured piece leaves, a promoted pawn becomes its new piece. */
  function MaterialDelta(m: Move): int
  {
    (if m.captured != NoPiece then -PieceValue(CaptureColor(m), m.captured) else 0)
    + (if m.promotion != NoPiece then PieceValue(m.color, m.promotion) - PieceValue(m.color, Pawn) else 0)
  }

  // ---------------------------------------------------------------
  // make_move / undo_move
  // ---------------------------------------------------------------

  /** `make_move`, step by step in the source's order. */
  function Make(keys: Keys, st: State, m: Move): (r: State)
    requires Shaped(st) && Playable(m)
    ensures Shaped(r)
  {
    var s1 := UpdateMaterial(st, m, false);
    var s2 := XorHashRights(keys, s1);
    var s3 := UpdateCastleRights(s2, m, false);
    var s4 := UpdateEnPassant(s3, m, false);
    var s5 := UpdatePieces(s4, m);
    var s6 := UpdatePieceMap(s5, m, false);
    var s7 := UpdatePiecesHash(keys, s6, m);
    var s8 := XorHashRights(keys, s7);
    UpdateTurn(keys, s8)
  }

  /** `undo_move`, step by step in the source's order. */
  function Undo(keys: Keys, st: State, m: Move): (r: State)
    requires Shaped(st) && Playable(m)
    ensures Shaped(r)
  {
    var s1 := UpdateTurn(keys, st);
    var s2 := XorHashRights(keys, s1);
    var s3 := UpdatePiecesHash(keys, s2, m);
    var s4 := UpdatePieceMap(s3, m, true);
    var s5 := UpdatePieces(s4, m);
    var s6 := UpdateEnPassant(s5, m, true);
    var s7 := UpdateCastleRights(s6, m, true);
    var s8 := XorHashRights(keys, s7);
    UpdateMaterial(s8, m, true)
  }

  /** The state after `make_move`, field by field. */
  lemma MakeFields(keys: Keys, st: State, m: Move)
    requires Shaped(st) && Playable(m)
    ensures var r := Make(keys, st, m);
      var cs := Changes(m);
      && r.pieces == ApplyFlips(st.pieces, PieceFlips(cs))
      && r.colors == ApplyFlips(st.colors, ColorFlips(cs))
      && r.all == ApplyFlips([st.all], AllFlips(cs))[0]
      && r.pieceMap == MapAfterMake(st.pieceMap, m)
      && r.turn == Opponent(st.turn)
      && r.rights == st.rights - LostRights(m)
      && r.enPassant == EnPassantAfter(m)
      && r.hash == Xor(FlipBase(FlipKeys(keys, FlipBase(st.hash, RightsWord(keys, st.rights), EpWord(keys, st.enPassant)),
                                         PieceFlips(cs)),
                                RightsWord(keys, r.rights), EpWord(keys, r.enPassant)),
                       keys.blackToMove)
      && r.material == st.material + MaterialDelta(m)
      && r.halfMoves == st.halfMoves && r.moveCount == st.moveCount
  {
  }

  /** The state after `undo_move`, field by field. */
  lemma UndoFields(keys: Keys, st: State, m: Move)
    requires Shaped(st) && Playable(m)
    ensures var r := Undo(keys, st, m);
      var cs := Changes(m);
      && r.pieces == ApplyFlips(st.pieces, PieceFlips(cs))
      && r.colors == ApplyFlips(st.colors, ColorFlips(cs))
      && r.all == ApplyFlips([st.all], AllFlips(cs))[0]
      && r.pieceMap == MapAfterUndo(st.pieceMap, m)
      && r.turn == Opponent(st.turn)
      && r.rights == RightsOf(m.oldRights)
      && r.enPassant == m.oldEnPassant
      && r.hash == FlipBase(FlipKeys(keys, FlipBase(Xor(st.hash, keys.blackToMove), RightsWord(keys, st.rights),
                                                     EpWord(keys, st.enPassant)),
                                     PieceFlips(cs)),
                            RightsWord(keys, RightsOf(m.oldRights)), EpWord(keys, m.oldEnPassant))
      && r.material == st.material - MaterialDelta(m)
      && r.halfMoves == st.halfMoves && r.moveCount == st.moveCount
  {
  }

  /** The snapshot inside the move is the one of the position it is played in. */
  predicate SnapshotOf(st: State, m: Move)
  {
    RightsOf(m.oldRights) == st.rights && m.oldEnPassant == st.enPassant
  }

  /** `FlipKeys` XORs one fixed word, independent of the starting hash. */
  lemma {:induction false} FlipKeysIsXor(keys: Keys, h: Word, ops: seq<Flip>)
    ensures FlipKeys(keys, h, ops) == Xor(h, FlipKeys(keys, {}, ops))
    decreases |ops|
  {
    if ops == [] {
      XorZero(h);
    } else {
      var init := ops[..|ops| - 1];
      FlipKeysIsXor(keys, h, init);
      var k := BoardKey(keys, ops[|ops| - 1].board)(ops[|ops| - 1].sq);
      XorAssoc(h, FlipKeys(keys, {}, init), k);
    }
  }

  /** The piece-key part of the hash is its own inverse. */
  lemma FlipKeysTwice(keys: Keys, h: Word, ops: seq<Flip>)
    ensures FlipKeys(keys, FlipKeys(keys, h, ops), ops) == h
  {
    FlipKeysIsXor(keys, h, ops);
    FlipKeysIsXor(keys, FlipKeys(keys, h, ops), ops);
    XorCancel(h, FlipKeys(keys, {}, ops));
  }

  lemma FlipBaseTwice(h: Word, a: Word, b: Word)
    ensures FlipBase(FlipBase(h, a, b), a, b) == h
  {
    assert forall sq: Square :: sq in FlipBase(FlipBase(h, a, b), a, b) <==> sq in h;
  }

  /** A row of one board toggled twice is the same row. */
  lemma AllFlipsTwice(all: Bitboard, ops: seq<Flip>)
    requires FlipsFit(ops, 1)
    ensures ApplyFlips([ApplyFlips([all], ops)[0]], ops)[0] == all
  {
    var once := ApplyFlips([all], ops);
    assert [once[0]] == once;
    ApplyFlipsTwice([all], ops);
  }

  /**
   * `undo_move` after `make_move` restores every bitboard, the side to move,
   * the castling rights, the en-passant square, the Zobrist hash, the material
   * score and the move counters, provided the move carries the snapshot of
   * the position it was made in.
   */
  lemma MakeUndoRestores(keys: Keys, st: State, m: Move)
    requires Shaped(st) && Playable(m) && SnapshotOf(st, m)
    ensures var r := Undo(keys, Make(keys, st, m), m);
      && r.pieces == st.pieces && r.colors == st.colors && r.all == st.all
      && r.turn == st.turn && r.rights == st.rights && r.enPassant == st.enPassant
      && r.hash == st.hash && r.material == st.material
      && r.halfMoves == st.halfMoves && r.moveCount == st.moveCount
  {
    var cs := Changes(m);
    var made := Make(keys, st, m);
    MakeFields(keys, st, m);
    UndoFields(keys, made, m);
    ApplyFlipsTwice(st.pieces, PieceFlips(cs));
    ApplyFlipsTwice(st.colors, ColorFlips(cs));
    AllFlipsTwice(st.all, AllFlips(cs));
    var h1 := FlipBase(st.hash, RightsWord(keys, st.rights), EpWord(keys, st.enPassant));
    var h2 := FlipKeys(keys, h1, PieceFlips(cs));
    var h3 := FlipBase(h2, RightsWord(keys, made.rights), EpWord(keys, made.enPassant));
    XorCancel(h3, keys.blackToMove);
    FlipBaseTwice(h2, RightsWord(keys, made.rights), EpWord(keys, made.enPassant));
    FlipKeysTwice(keys, h1, PieceFlips(cs));
    FlipBaseTwice(st.hash, RightsWord(keys, st.rights), EpWord(keys, st.enPassant));
  }

  /**
   * What `update_piece_map` expects of the squares a move touches, for its
   * undo to put every character back: the mover stands on `from`, the
   * captured piece (if any) on the capture square, `to` is otherwise empty,
   * a castling rook stands on its old square and the new one is empty, and
   * no two of these squares coincide.
   */
  predicate MapFits(pm: seq<char>, m: Move)
  {
    && |pm| == 64 && Playable(m)
    && m.from != m.to
    && pm[m.from] == PieceChar(m.moved, m.color)
    && (if m.isEnPassant then
          && m.captured != NoPiece && pm[m.to] == '.'
          && pm[CaptureSquare(m)] == PieceChar(m.captured, CaptureColor(m)) && CaptureSquare(m) != m.from
        else pm[m.to] == (if m.captured != NoPiece then PieceChar(m.captured, CaptureColor(m)) else '.'))
    && (m.isCastle ==>
          && pm[OldRookSquare(m)] == PieceChar(Rook, m.color) && pm[NewRookSquare(m)] == '.'
          && OldRookSquare(m) != m.from && OldRookSquare(m) != m.to
          && NewRookSquare(m) != m.from && NewRookSquare(m) != m.to
          && (m.isEnPassant ==> CaptureSquare(m) != OldRookSquare(m) && CaptureSquare(m) != NewRookSquare(m)))
  }

  /** The undo half of `update_piece_map` reverses the make half on a fitting map. */
  lemma PieceMapRestores(pm: seq<char>, m: Move)
    requires MapFits(pm, m)
    ensures MapAfterUndo(MapAfterMake(pm, m), m) == pm
  {
    var r := MapAfterUndo(MapAfterMake(pm, m), m);
    forall i | 0 <= i < 64 ensures r[i] == pm[i] {
    }
  }

  /** On a fitting piece map, `undo_move` after `make_move` gives back the very same state. */
  lemma MakeUndoIdentity(keys: Keys, st: State, m: Move)
    requires Shaped(st) && SnapshotOf(st, m) && MapFits(st.pieceMap, m)
    ensures Undo(keys, Make(keys, st, m), m) == st
  {
    MakeUndoRestores(keys, st, m);
    MakeFields(keys, st, m);
    UndoFields(keys, Make(keys, st, m), m);
    PieceMapRestores(st.pieceMap, m);
  }

  /** After `make_move` the rights can only shrink, by exactly the forfeited ones. */
  lemma MakeCastleRights(keys: Keys, st: State, m: Move)
    requires Shaped(st) && Playable(m)
    ensures Make(keys, st, m).rights <= st.rights
    ensures forall r :: r in st.rights ==> (r in Make(keys, st, m).rights <==> !Forfeits(m, r))
  {
    MakeFields(keys, st, m);
  }

  /**
   * After `make_move` the en-passant square is set exactly after a double pawn
   * push, and for a push in the mover's direction it is the square skipped.
   */
  lemma MakeEnPassant(keys: Keys, st: State, m: Move)
    requires Shaped(st) && Playable(m)
    ensures !IsDoublePawnMove(m) ==> Make(keys, st, m).enPassant == -1
    ensures IsDoublePawnMove(m) && m.color == White && m.to == m.from + 16 ==>
              Make(keys, st, m).enPassant == m.from + 8 && OnBoard(Make(keys, st, m).enPassant)
    ensures IsDoublePawnMove(m) && m.color == Black && m.to == m.from - 16 ==>
              Make(keys, st, m).enPassant == m.from - 8 && OnBoard(Make(keys, st, m).enPassant)
  {
    MakeFields(keys, st, m);
  }

  /** After `make_move` the material score moves by the move's material balance. */
  lemma MakeMaterial(keys: Keys, st: State, m: Move)
    requires Shaped(st) && Playable(m)
    ensures Make(keys, st, m).material == st.material + MaterialDelta(m)
    ensures m.captured == NoPiece && m.promotion == NoPiece ==> Make(keys, st, m).material == st.material
    ensures m.captured != NoPiece && m.promotion == NoPiece && m.color == White ==> Make(keys, st, m).material > st.material
    ensures m.captured != NoPiece && m.promotion == NoPiece && m.color == Black ==> Make(keys, st, m).material < st.material
  {
    MakeFields(keys, st, m);
  }

  // ---------------------------------------------------------------
  // The hash as a function of the position (initialize_hash)
  // ---------------------------------------------------------------

  /**
   * `initialize_hash`: the piece keys of every set bit, the side key when
   * black is to move, the keys of the rights held and of the en-passant file.
   */
  function ZobristOf(keys: Keys, st: State): Word
    requires Shaped(st)
  {
    var h1 := BoardsHash(keys, st.pieces, 12);
    var h2 := if st.turn == Black then Xor(h1, keys.blackToMove) else h1;
    Xor(Xor(h2, RightsWord(keys, st.rights)), EpWord(keys, st.enPassant))
  }

  /** The incrementally kept hash agrees with the hash recomputed from scratch. */
  predicate HashConsistent(keys: Keys, st: State)
    requires Shaped(st)
  {
    st.hash == ZobristOf(keys, st)
  }

  /** The side-to-move part of `initialize_hash`. */
  function TurnWord(keys: Keys, c: Color): Word
  {
    if c == Black then keys.blackToMove else {}
  }

  lemma ZobristOfSplit(keys: Keys, st: State)
    requires Shaped(st)
    ensures ZobristOf(keys, st) ==
            FlipBase(Xor(BoardsHash(keys, st.pieces, 12), TurnWord(keys, st.turn)), RightsWord(keys, st.rights),
                     EpWord(keys, st.enPassant))
  {
    XorZero(BoardsHash(keys, st.pieces, 12));
  }

  lemma TurnWordFlip(keys: Keys, c: Color)
    ensures Xor(TurnWord(keys, c), keys.blackToMove) == TurnWord(keys, Opponent(c))
  {
    XorZero(keys.blackToMove);
    assert forall sq: Square :: sq !in Xor(keys.blackToMove, keys.blackToMove);
  }

  /** The regrouping behind `MakeKeepsHashConsistent`. */
  lemma XorRegroup(b: Word, t: Word, r: Word, e: Word, p: Word, r2: Word, e2: Word, k: Word)
    ensures Xor(FlipBase(Xor(FlipBase(FlipBase(Xor(b, t), r, e), r, e), p), r2, e2), k)
         == FlipBase(Xor(Xor(b, p), Xor(t, k)), r2, e2)
  {
    assert forall sq: Square ::
      sq in Xor(FlipBase(Xor(FlipBase(FlipBase(Xor(b, t), r, e), r, e), p), r2, e2), k)
      <==> sq in FlipBase(Xor(Xor(b, p), Xor(t, k)), r2, e2);
  }

  /**
   * `make_move` keeps the incrementally updated hash equal to the hash
   * `initialize_hash` would compute for the new position, for every playable
   * move: each toggled piece bit has its key XORed in, and the rights and
   * en-passant keys are XORed out before the change and in after it.
   */
  lemma MakeKeepsHashConsistent(keys: Keys, st: State, m: Move)
    requires Shaped(st) && Playable(m) && HashConsistent(keys, st)
    ensures HashConsistent(keys, Make(keys, st, m))
  {
    var made := Make(keys, st, m);
    var ops := PieceFlips(Changes(m));
    var b := BoardsHash(keys, st.pieces, 12);
    var t := TurnWord(keys, st.turn);
    var r := RightsWord(keys, st.rights);
    var e := EpWord(keys, st.enPassant);
    var p := FlipKeys(keys, {}, ops);
    var r2 := RightsWord(keys, made.rights);
    var e2 := EpWord(keys, made.enPassant);
    var h1 := FlipBase(st.hash, r, e);
    assert made.hash == Xor(FlipBase(FlipKeys(keys, h1, ops), r2, e2), keys.blackToMove);
    FlipKeysIsXor(keys, h1, ops);
    BoardsHashFlips(keys, st.pieces, ops);
    FlipKeysIsXor(keys, b, ops);
    assert BoardsHash(keys, made.pieces, 12) == Xor(b, p);
    ZobristOfSplit(keys, st);
    ZobristOfSplit(keys, made);
    TurnWordFlip(keys, st.turn);
    XorRegroup(b, t, r, e, p, r2, e2, keys.blackToMove);
  }

  lemma XorRegroupUndo(b: Word, t: Word, r: Word, e: Word, p: Word, r2: Word, e2: Word, k: Word)
    ensures FlipBase(Xor(FlipBase(Xor(FlipBase(Xor(b, t), r, e), k), r, e), p), r2, e2)
         == FlipBase(Xor(Xor(b, p), Xor(t, k)), r2, e2)
  {
    assert forall sq: Square ::
      sq in FlipBase(Xor(FlipBase(Xor(FlipBase(Xor(b, t), r, e), k), r, e), p), r2, e2)
      <==> sq in FlipBase(Xor(Xor(b, p), Xor(t, k)), r2, e2);
  }

  /**
   * `undo_move` keeps the hash consistent too, whatever snapshot the move
   * carries: the rights and en-passant square it restores are hashed in.
   */
  lemma UndoKeepsHashConsistent(keys: Keys, st: State, m: Move)
    requires Shaped(st) && Playable(m) && HashConsistent(keys, st)
    ensures HashConsistent(keys, Undo(keys, st, m))
  {
    var undone := Undo(keys, st, m);
    UndoFields(keys, st, m);
    var ops := PieceFlips(Changes(m));
    var b := BoardsHash(keys, st.pieces, 12);
    var h1 := FlipBase(Xor(st.hash, keys.blackToMove), RightsWord(keys, st.rights), EpWord(keys, st.enPassant));
    FlipKeysIsXor(keys, h1, ops);
    BoardsHashFlips(keys, st.pieces, ops);
    FlipKeysIsXor(keys, b, ops);
    ZobristOfSplit(keys, st);
    ZobristOfSplit(keys, undone);
    TurnWordFlip(keys, st.turn);
    XorRegroupUndo(b, TurnWord(keys, st.turn), RightsWord(keys, st.rights), EpWord(keys, st.enPassant),
                   FlipKeys(keys, {}, ops), RightsWord(keys, RightsOf(m.oldRights)), EpWord(keys, m.oldEnPassant),
                   keys.blackToMove);
  }

  // ---------------------------------------------------------------
  // make_null_move / undo_null_move
  // ---------------------------------------------------------------

  /**
   * `make_null_move`: the en-passant key leaves the hash, the square is
   * cleared, the side to move flips; the old square is returned for the undo.
   */
  function MakeNullMove(keys: Keys, st: State): (State, int)
  {
    var h := Xor(st.hash, EpWord(keys, st.enPassant));
    (st.(enPassant := -1, turn := Opponent(st.turn), hash := Xor(h, keys.blackToMove)), st.enPassant)
  }

  /** `undo_null_move`: flip the side back, restore the square and its key. */
  function UndoNullMove(keys: Keys, st: State, originalEp: int): State
  {
    var h := Xor(st.hash, keys.blackToMove);
    st.(turn := Opponent(st.turn), enPassant := originalEp, hash := Xor(h, EpWord(keys, originalEp)))
  }

  /** Undoing a null move with the square it returned gives back the very same state. */
  lemma NullMoveRoundTrip(keys: Keys, st: State)
    ensures UndoNullMove(keys, MakeNullMove(keys, st).0, MakeNullMove(keys, st).1) == st
  {
    var h := Xor(st.hash, EpWord(keys, st.enPassant));
    XorCancel(h, keys.blackToMove);
    XorCancel(st.hash, EpWord(keys, st.enPassant));
  }

  /** A null move keeps the hash consistent, and leaves no en-passant square behind. */
  lemma NullMoveKeepsHashConsistent(keys: Keys, st: State)
    requires Shaped(st) && HashConsistent(keys, st)
    ensures MakeNullMove(keys, st).0.enPassant == -1
    ensures HashConsistent(keys, MakeNullMove(keys, st).0)
  {
    var r := MakeNullMove(keys, st).0;
    var b := BoardsHash(keys, st.pieces, 12);
    var t := TurnWord(keys, st.turn);
    var rw := RightsWord(keys, st.rights);
    var e := EpWord(keys, st.enPassant);
    ZobristOfSplit(keys, st);
    ZobristOfSplit(keys, r);
    TurnWordFlip(keys, st.turn);
    assert EpWord(keys, -1) == {};
    assert forall sq: Square ::
      sq in Xor(Xor(FlipBase(Xor(b, t), rw, e), e), keys.blackToMove)
      <==> sq in FlipBase(Xor(b, Xor(t, keys.blackToMove)), rw, {});
  }

  /** Undoing a null move keeps the hash consistent, for any square handed back. */
  lemma UndoNullMoveKeepsHashConsistent(keys: Keys, st: State, originalEp: int)
    requires Shaped(st) && HashConsistent(keys, st) && st.enPassant == -1
    ensures HashConsistent(keys, UndoNullMove(keys, st, originalEp))
  {
    var r := UndoNullMove(keys, st, originalEp);
    var b := BoardsHash(keys, st.pieces, 12);
    var t := TurnWord(keys, st.turn);
    var rw := RightsWord(keys, st.rights);
    var e := EpWord(keys, originalEp);
    ZobristOfSplit(keys, st);
    ZobristOfSplit(keys, r);
    TurnWordFlip(keys, st.turn);
    assert EpWord(keys, -1) == {};
    assert forall sq: Square ::
      sq in Xor(Xor(FlipBase(Xor(b, t), rw, {}), keys.blackToMove), e)
      <==> sq in FlipBase(Xor(b, Xor(t, keys.blackToMove)), rw, e);
  }

  // ---------------------------------------------------------------
  // initialize_board and initialize_material_score
  // ---------------------------------------------------------------

  /** `pieces[c][p]` in the flattened layout. */
  function PieceBoard(pieces: seq<Bitboard>, c: int, p: int): Bitboard
    requires |pieces| == 12 && 0 <= c < 2 && 0 <= p < 6
  {
    pieces[c * 6 + p]
  }

  /** The union of the first `n` piece boards of colour index `c`. */
  function UnionOf(pieces: seq<Bitboard>, c: int, n: int): Bitboard
    requires |pieces| == 12 && 0 <= c < 2 && 0 <= n <= 6
  {
    if n == 0 then {} else UnionOf(pieces, c, n - 1) + PieceBoard(pieces, c, n - 1)
  }

  lemma {:induction false} UnionOfMember(pieces: seq<Bitboard>, c: int, n: int, sq: Square)
    requires |pieces| == 12 && 0 <= c < 2 && 0 <= n <= 6
    ensures sq in UnionOf(pieces, c, n) <==> exists p :: 0 <= p < n && sq in PieceBoard(pieces, c, p)
  {
    if n > 0 {
      UnionOfMember(pieces, c, n - 1, sq);
      if sq in PieceBoard(pieces, c, n - 1) {
        assert 0 <= n - 1 < n;
      }
    }
  }

  /**
   * What `initialize_board` establishes: each colour board is the union of
   * its six piece boards and `all_pieces` is the union of the two colours.
   */
  predicate Coherent(st: State)
    requires Shaped(st)
  {
    st.colors[0] == UnionOf(st.pieces, 0, 6) && st.colors[1] == UnionOf(st.pieces, 1, 6)
    && st.all == st.colors[0] + st.colors[1]
  }

  /** In a coherent state a square is occupied exactly when some piece board holds it. */
  lemma CoherentOccupancy(st: State, sq: Square)
    requires Shaped(st) && Coherent(st)
    ensures sq in st.all <==> exists k :: 0 <= k < 12 && sq in st.pieces[k]
  {
    UnionOfMember(st.pieces, 0, 6, sq);
    UnionOfMember(st.pieces, 1, 6, sq);
    if sq in st.all {
      var c := if sq in st.colors[0] then 0 else 1;
      var p :| 0 <= p < 6 && sq in PieceBoard(st.pieces, c, p);
      assert 0 <= c * 6 + p < 12 && sq in st.pieces[c * 6 + p];
    }
    if exists k :: 0 <= k < 12 && sq in st.pieces[k] {
      var k :| 0 <= k < 12 && sq in st.pieces[k];
      if k < 6 {
        assert sq in PieceBoard(st.pieces, 0, k);
      } else {
        assert sq in PieceBoard(st.pieces, 1, k - 6);
      }
    }
  }

  /** `PIECE_VALUES[color][piece]` of board `k` in the flattened layout. */
  function BoardValue(k: int): int
    requires 0 <= k < 12
  {
    PieceValue(if k < 6 then White else Black, PieceOfIndex(k % 6))
  }

  /** The sum over boards `0 .. n - 1` of `popcount(board) * PIECE_VALUES[color][piece]`. */
  function MaterialUpTo(pieces: seq<Bitboard>, n: int): int
    requires |pieces| == 12 && 0 <= n <= 12
  {
    if n == 0 then 0 else MaterialUpTo(pieces, n - 1) + |pieces[n - 1]| * BoardValue(n - 1)
  }

  /** `initialize_material_score`: white's material minus black's. */
  function MaterialOf(pieces: seq<Bitboard>): int
    requires |pieces| == 12
  {
    MaterialUpTo(pieces, 12)
  }

  /** The boards with the colours exchanged. */
  function SwapColors(pieces: seq<Bitboard>): (r: seq<Bitboard>)
    requires |pieces| == 12
    ensures |r| == 12
  {
    pieces[6..] + pieces[..6]
  }

  /** A board of the other colour counts the same pieces with the opposite sign. */
  lemma MirroredTerm(count: int, k: int)
    requires 0 <= k < 6
    ensures count * BoardValue(6 + k) == -(count * BoardValue(k))
  {
    assert (6 + k) % 6 == k;
    PieceValueMirrored(PieceOfIndex(k));
    assert BoardValue(6 + k) == -BoardValue(k);
  }

  lemma {:induction false} MaterialUpToHalves(pieces: seq<Bitboard>, n: int)
    requires |pieces| == 12 && 0 <= n <= 6
    ensures MaterialUpTo(pieces, 6 + n) - MaterialUpTo(pieces, 6)
         == -MaterialUpTo(SwapColors(pieces), n)
  {
    if n > 0 {
      MaterialUpToHalves(pieces, n - 1);
      var q := SwapColors(pieces);
      assert q[n - 1] == pieces[6 + n - 1];
      MirroredTerm(|pieces[6 + n - 1]|, n - 1);
    }
  }

  lemma {:induction false} MaterialUpToSwapped(pieces: seq<Bitboard>, n: int)
    requires |pieces| == 12 && 0 <= n <= 6
    ensures MaterialUpTo(SwapColors(pieces), 6 + n) - MaterialUpTo(SwapColors(pieces), 6)
         == -MaterialUpTo(pieces, n)
  {
    if n > 0 {
      MaterialUpToSwapped(pieces, n - 1);
      var q := SwapColors(pieces);
      assert q[6 + n - 1] == pieces[n - 1];
      MirroredTerm(|pieces[n - 1]|, n - 1);
    }
  }

  /** Exchanging the colours of every piece negates the material score. */
  lemma MaterialMirrored(pieces: seq<Bitboard>)
    requires |pieces| == 12
    ensures MaterialOf(SwapColors(pieces)) == -MaterialOf(pieces)
  {
    MaterialUpToHalves(pieces, 6);
    MaterialUpToSwapped(pieces, 6);
  }
}
