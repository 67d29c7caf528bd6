// Legal move generation of src/MoveGenerator.cpp on the `Position.State`
// value. Each generator is a recursive function over the bitboard the source
// scans (lowest square first, as `get_lsb` and `x &= x - 1` visit it) and a
// method with the source's while loops, proved to append exactly that list.
module MoveGen {
  import opened Bits
  import opened Pieces
  import opened Moves
  import opened Tables
  import opened Position
  import opened Attacks

  // ---------------------------------------------------------------
  // Board queries
  // ---------------------------------------------------------------

  /** Every square of the piece map holds a character `PIECE_TYPE_MAP.at` can look up. */
  predicate MapReadable(st: State)
    requires Shaped(st)
  {
    forall sq: Square :: PieceTypeOf(st.pieceMap[sq]).Some?
  }

  /** The castling rights of the side to move, kingside and queenside. */
  function KingsideRight(c: Color): Right
  {
    if c == White then WhiteKingside else BlackKingside
  }

  function QueensideRight(c: Color): Right
  {
    if c == White then WhiteQueenside else BlackQueenside
  }

  /**
   * What `generate_moves` needs of a position to stay inside its tables: the
   * side to move has a king (its lowest square is the king square), the piece
   * map is readable, the en-passant square is a square or -1, and a held
   * castling right leaves room for the squares the castling test reads.
   */
  predicate Ready(st: State)
  {
    && Shaped(st)
    && MapReadable(st)
    && st.pieces[BoardIndex(st.turn, King)] != {}
    && -1 <= st.enPassant < 64
    && (KingsideRight(st.turn) in st.rights ==> Lsb(st.pieces[BoardIndex(st.turn, King)]) + 2 < 64)
    && (QueensideRight(st.turn) in st.rights ==> Lsb(st.pieces[BoardIndex(st.turn, King)]) - 3 >= 0)
  }

  /** `get_king_square(turn)`: the lowest square of the mover's king board. */
  function KingSquare(st: State): (sq: Square)
    requires Shaped(st) && st.pieces[BoardIndex(st.turn, King)] != {}
    ensures sq in st.pieces[BoardIndex(st.turn, King)]
    ensures forall k :: k in st.pieces[BoardIndex(st.turn, King)] ==> sq <= k
    ensures |st.pieces[BoardIndex(st.turn, King)]| == 1 ==> st.pieces[BoardIndex(st.turn, King)] == {sq}
  {
    SingletonIsLsb(st.pieces[BoardIndex(st.turn, King)]);
    Lsb(st.pieces[BoardIndex(st.turn, King)]) as Square
  }

  /** `get_piece_on_square`: the piece type of the map character, `NONE` for '.'. */
  function PieceOn(st: State, sq: Square): (p: PieceType)
    requires Shaped(st) && MapReadable(st)
    ensures p == NoPiece <==> st.pieceMap[sq] == '.'
    ensures p != NoPiece ==> st.pieceMap[sq] == PieceChar(p, White) || st.pieceMap[sq] == PieceChar(p, Black)
  {
    PieceTypeOf(st.pieceMap[sq]).value
  }

  /** `get_pieces(c, p)`. */
  function PiecesOf(st: State, c: Color, p: PieceType): Bitboard
    requires Shaped(st) && p != NoPiece
  {
    st.pieces[BoardIndex(c, p)]
  }

  /** `get_color_pieces` of the side to move and of its opponent. */
  function Own(st: State): Bitboard
    requires Shaped(st)
  {
    st.colors[ColorIndex(st.turn)]
  }

  function Enemy(st: State): Bitboard
    requires Shaped(st)
  {
    st.colors[ColorIndex(Opponent(st.turn))]
  }

  /**
   * `count_attacker_on_square(sq, by, 1, false).count > 0`. The test reaches
   * the count through a three-step countdown, so that the verifier expands the
   * whole attack count only where `AttackedIs` asks for it, not wherever a
   * move list mentions an attacked square.
   */
  predicate Attacked(st: State, sq: Square, attacker: Color)
    requires Shaped(st)
  {
    AttackedWithin(st, sq, attacker, 3)
  }

  predicate AttackedWithin(st: State, sq: Square, attacker: Color, n: nat)
    requires Shaped(st)
  {
    if n == 0 then AttackInfo(st, sq, attacker, 1, false).count > 0 else AttackedWithin(st, sq, attacker, n - 1)
  }

  /** The attack test is the attack count with bound 1, and holds exactly when `sq` has an attacker. */
  lemma AttackedIs(st: State, sq: Square, attacker: Color)
    requires Shaped(st)
    ensures Attacked(st, sq, attacker) <==> AttackInfo(st, sq, attacker, 1, false).count > 0
    ensures Attacked(st, sq, attacker) <==> AttackerTotal(st, sq, attacker) >= 1
  {
    assert Attacked(st, sq, attacker) == AttackedWithin(st, sq, attacker, 2);
    assert AttackedWithin(st, sq, attacker, 2) == AttackedWithin(st, sq, attacker, 1);
    assert AttackedWithin(st, sq, attacker, 1) == AttackedWithin(st, sq, attacker, 0);
    AttackInfoBound(st, sq, attacker, 1, false);
  }

  /** The "KQkq" string `get_castle_rights` returns for a set of rights. */
  function RightsString(rights: set<Right>): string
  {
    (if WhiteKingside in rights then "K" else "")
    + (if WhiteQueenside in rights then "Q" else "")
    + (if BlackKingside in rights then "k" else "")
    + (if BlackQueenside in rights then "q" else "")
  }

  /** Reading the string back gives the rights it was written from. */
  lemma RightsStringRoundTrip(rights: set<Right>)
    ensures RightsOf(RightsString(rights)) == rights
  {
    var s := RightsString(rights);
    forall r: Right ensures r in rights <==> RightChar(r) in s {
    }
  }

  /** Every generated move carries the position's undo snapshot. */
  lemma NewMoveSnapshot(st: State, from: Square, to: Square, p: PieceType, captured: PieceType,
                        promotion: PieceType, castle: bool, ep: bool)
    ensures SnapshotOf(st, NewMove(st, from, to, p, captured, promotion, castle, ep))
  {
    RightsStringRoundTrip(st.rights);
  }

  /**
   * `moves.emplace_back(from, to, piece, turn, captured, castle_rights,
   * en_passant, promotion, is_castle, is_en_passant)`: a move of the side to
   * move that carries the position's undo snapshot.
   */
  function NewMove(st: State, from: Square, to: Square, p: PieceType, captured: PieceType,
                   promotion: PieceType, castle: bool, ep: bool): (m: Move)
    ensures m.oldRights == RightsString(st.rights) && m.oldEnPassant == st.enPassant
    ensures m.color == st.turn && m.from == from && m.to == to
    ensures m.moved == p && m.captured == captured && m.promotion == promotion
    ensures m.isCastle == castle && m.isEnPassant == ep
  {
    MakeMove(from, to, p, st.turn, captured, RightsString(st.rights), st.enPassant, promotion, castle, ep)
  }

  // ---------------------------------------------------------------
  // Slider attacks. The magic lookups of the queen, rook and bishop
  // generators stand for the ray cast `generate_sliding_moves` performs.
  // ---------------------------------------------------------------

  /**
   * `ray_mask ^ RAY_MASK[dir][first blocker]`, or the whole ray when nothing
   * blocks it: the ray cut after its first occupied square.
   */
  function RayAttacks(d: int, sq: Square, occ: Bitboard): Bitboard
    requires 0 <= d < 8
  {
    var blockers := RayMask(d, sq) * occ;
    if blockers == {} then RayMask(d, sq)
    else Xor(RayMask(d, sq), RayMask(d, (if d < 4 then Lsb(blockers) else Msb(blockers)) as Square))
  }

  /** Bishop attacks: the four diagonal rays (even indices). */
  function BishopAttacks(sq: Square, occ: Bitboard): Bitboard
  {
    RayAttacks(0, sq, occ) + RayAttacks(2, sq, occ) + RayAttacks(4, sq, occ) + RayAttacks(6, sq, occ)
  }

  /** Rook attacks: the four straight rays (odd indices). */
  function RookAttacks(sq: Square, occ: Bitboard): Bitboard
  {
    RayAttacks(1, sq, occ) + RayAttacks(3, sq, occ) + RayAttacks(5, sq, occ) + RayAttacks(7, sq, occ)
  }

  /** The attack set each non-pawn, non-king generator starts from; the queen's is `bishop | rook`. */
  function PieceAttacks(p: PieceType, sq: Square, occ: Bitboard): Bitboard
  {
    if p == Knight then KnightAttacks(sq)
    else if p == Bishop then BishopAttacks(sq, occ)
    else if p == Rook then RookAttacks(sq, occ)
    else BishopAttacks(sq, occ) + RookAttacks(sq, occ)
  }

  /** The four piece types of the queen, rook, bishop and knight generators. */
  predicate Officer(p: PieceType)
  {
    p == Queen || p == Rook || p == Bishop || p == Knight
  }

  // ---------------------------------------------------------------
  // Pins (`calculate_pinned_pieces`)
  // ---------------------------------------------------------------

  /** The enemy sliders that pin along ray `d`: bishops on diagonals, rooks on lines, and queens. */
  function Pinners(st: State, d: int): Bitboard
    requires Shaped(st)
  {
    PiecesOf(st, Opponent(st.turn), if Diagonal(d) then Bishop else Rook) + PiecesOf(st, Opponent(st.turn), Queen)
  }

  /**
   * The pin ray `d` of the king creates: when the first piece on the ray is
   * friendly and the second is an enemy slider of the ray's kind, the first
   * piece and its mask `LINE_BETWEEN[king][pinner] ^ king`.
   */
  function PinOnRay(st: State, k: Square, d: int): Option<(Square, Bitboard)>
    requires Shaped(st) && 0 <= d < 8
  {
    var ray := RayMask(d, k);
    var first := FirstBlocker(ray, st.all, d < 4);
    if first == -1 || first !in Own(st) then None
    else
      var second := SecondBlocker(ray, st.all, d < 4, first);
      if second == -1 || second !in Pinners(st, d) then None
      else Some((first as Square, Xor(LineBetween(k, second as Square), {k})))
  }

  /** `pinned_info` after the first `n` directions: all squares, patched by each pin found. */
  function PinsUpTo(st: State, k: Square, n: int): (info: seq<Bitboard>)
    requires Shaped(st) && 0 <= n <= 8
    ensures |info| == 64
  {
    if n == 0 then seq(64, _ => AllSquares())
    else
      var prev := PinsUpTo(st, k, n - 1);
      match PinOnRay(st, k, n - 1)
      case None => prev
      case Some((sq, mask)) => prev[sq := mask]
  }

  function PinnedInfo(st: State, k: Square): (info: seq<Bitboard>)
    requires Shaped(st)
    ensures |info| == 64
  {
    PinsUpTo(st, k, 8)
  }

  /** `calculate_pinned_pieces`. */
  method CalculatePinnedPieces(st: State, k: Square) returns (info: seq<Bitboard>)
    requires Shaped(st)
    ensures info == PinnedInfo(st, k)
  {
    info := seq(64, _ => AllSquares());
    var d := 0;
    while d < 8
      invariant 0 <= d <= 8
      invariant info == PinsUpTo(st, k, d)
    {
      info := PinStep(st, k, d, info);
      d := d + 1;
    }
  }

  /** One pass of the `calculate_pinned_pieces` loop: the pin along ray `d`, if any, recorded. */
  method PinStep(st: State, k: Square, d: int, before: seq<Bitboard>) returns (info: seq<Bitboard>)
    requires Shaped(st) && 0 <= d < 8 && before == PinsUpTo(st, k, d)
    ensures info == PinsUpTo(st, k, d + 1)
  {
    info := before;
    var ray := RayMask(d, k);
    var first := FirstBlocker(ray, st.all, d < 4);
    if first != -1 && first in Own(st) {
      var second := SecondBlocker(ray, st.all, d < 4, first);
      if second != -1 && second in Pinners(st, d) {
        info := info[first := Xor(LineBetween(k, second as Square), {k})];
      }
    }
  }

  // ---------------------------------------------------------------
  // Queen, rook, bishop and knight moves
  // ---------------------------------------------------------------

  /**
   * The destinations kept for the piece on `from`: its attacks minus own
   * pieces, inside the remedy mask and, for a slider, inside its pin mask;
   * only enemy pieces under `captures_only`. A pinned knight keeps nothing.
   */
  function PieceTargets(st: State, p: PieceType, from: Square, pinned: seq<Bitboard>, remedy: Bitboard,
                        capOnly: bool): Bitboard
    requires Shaped(st) && |pinned| == 64
  {
    if p == Knight && pinned[from] != AllSquares() then {}
    else
      var reach := if p == Knight then (KnightAttacks(from) - Own(st)) * remedy
                   else (PieceAttacks(p, from, st.all) - Own(st)) * remedy * pinned[from];
      if capOnly then reach * Enemy(st) else reach
  }

  /** One move from `from` to each square of `targets`, lowest first. */
  function TargetMoves(st: State, from: Square, p: PieceType, targets: Bitboard): seq<Move>
    requires Shaped(st) && MapReadable(st)
    decreases |targets|
  {
    if targets == {} then []
    else
      var to := Lsb(targets) as Square;
      [NewMove(st, from, to, p, PieceOn(st, to), NoPiece, false, false)] + TargetMoves(st, from, p, targets - {to})
  }

  /** The moves of the pieces of type `p` standing on `froms`, lowest square first. */
  function PieceMovesOver(st: State, p: PieceType, froms: Bitboard, pinned: seq<Bitboard>, remedy: Bitboard,
                          capOnly: bool): seq<Move>
    requires Shaped(st) && MapReadable(st) && |pinned| == 64
    decreases |froms|
  {
    if froms == {} then []
    else
      var from := Lsb(froms) as Square;
      TargetMoves(st, from, p, PieceTargets(st, p, from, pinned, remedy, capOnly))
      + PieceMovesOver(st, p, froms - {from}, pinned, remedy, capOnly)
  }

  /** `generate_queen_moves`, `generate_rook_moves`, `generate_bishop_moves`, `generate_knight_moves`. */
  function PieceMoves(st: State, p: PieceType, pinned: seq<Bitboard>, remedy: Bitboard, capOnly: bool): seq<Move>
    requires Shaped(st) && MapReadable(st) && |pinned| == 64 && Officer(p)
  {
    PieceMovesOver(st, p, PiecesOf(st, st.turn, p), pinned, remedy, capOnly)
  }

  /** The four generators in the order `generate_moves` calls them. */
  function OfficerMoves(st: State, pinned: seq<Bitboard>, remedy: Bitboard, capOnly: bool): seq<Move>
    requires Shaped(st) && MapReadable(st) && |pinned| == 64
  {
    PieceMoves(st, Queen, pinned, remedy, capOnly) + PieceMoves(st, Rook, pinned, remedy, capOnly)
    + PieceMoves(st, Bishop, pinned, remedy, capOnly) + PieceMoves(st, Knight, pinned, remedy, capOnly)
  }

  /**
   * One of `generate_queen_moves` .. `generate_knight_moves`: the outer loop
   * over the pieces, the inner loop over their destinations.
   */
  method GeneratePieceMoves(st: State, before: seq<Move>, p: PieceType, pinned: seq<Bitboard>,
                            remedy: Bitboard, capOnly: bool) returns (moves: seq<Move>)
    requires Shaped(st) && MapReadable(st) && |pinned| == 64 && Officer(p)
    ensures moves == before + PieceMoves(st, p, pinned, remedy, capOnly)
  {
    moves := before;
    var pieces := PiecesOf(st, st.turn, p);
    ghost var total := before + PieceMoves(st, p, pinned, remedy, capOnly);
    while pieces != {}
      invariant moves + PieceMovesOver(st, p, pieces, pinned, remedy, capOnly) == total
      decreases |pieces|
    {
      var from := Lsb(pieces) as Square;
      var rest := pieces - {from};
      ghost var mark := moves;
      moves := AppendPieceMoves(st, moves, p, from, pinned, remedy, capOnly);
      AppendAssoc(mark, TargetMoves(st, from, p, PieceTargets(st, p, from, pinned, remedy, capOnly)),
                  PieceMovesOver(st, p, rest, pinned, remedy, capOnly));
      pieces := rest;
    }
  }

  /** The body of the outer loop for the piece on `from`: a pinned knight is skipped. */
  method AppendPieceMoves(st: State, before: seq<Move>, p: PieceType, from: Square, pinned: seq<Bitboard>,
                          remedy: Bitboard, capOnly: bool) returns (moves: seq<Move>)
    requires Shaped(st) && MapReadable(st) && |pinned| == 64
    ensures moves == before + TargetMoves(st, from, p, PieceTargets(st, p, from, pinned, remedy, capOnly))
  {
    if p == Knight && pinned[from] != AllSquares() {
      moves := before;
    } else {
      var attacks := DestinationMask(st, p, from, pinned, remedy, capOnly);
      moves := AppendTargetMoves(st, before, from, p, attacks);
    }
  }

  /** The attack mask of one unpinned-or-slider piece, trimmed as the generators trim it. */
  method DestinationMask(st: State, p: PieceType, from: Square, pinned: seq<Bitboard>, remedy: Bitboard,
                         capOnly: bool) returns (attacks: Bitboard)
    requires Shaped(st) && |pinned| == 64
    requires p == Knight ==> pinned[from] == AllSquares()
    ensures attacks == PieceTargets(st, p, from, pinned, remedy, capOnly)
  {
    var own := Own(st);
    if p == Knight {
      attacks := (KnightAttacks(from) - own) * remedy;
    } else {
      attacks := (PieceAttacks(p, from, st.all) - own) * remedy * pinned[from];
    }
    if capOnly {
      attacks := attacks * Enemy(st);
    }
  }

  /** The inner `while (attacks)` loop: one move per destination, lowest first. */
  method AppendTargetMoves(st: State, before: seq<Move>, from: Square, p: PieceType, targets: Bitboard)
    returns (moves: seq<Move>)
    requires Shaped(st) && MapReadable(st)
    ensures moves == before + TargetMoves(st, from, p, targets)
  {
    moves := before;
    var attacks := targets;
    while attacks != {}
      invariant moves + TargetMoves(st, from, p, attacks) == before + TargetMoves(st, from, p, targets)
      decreases |attacks|
    {
      var to := Lsb(attacks) as Square;
      var m := NewMove(st, from, to, p, PieceOn(st, to), NoPiece, false, false);
      AppendAssoc(moves, [m], TargetMoves(st, from, p, attacks - {to}));
      moves := moves + [m];
      attacks := attacks - {to};
    }
  }

  /** Concatenation regroups; stated once so the loops need not prove it element by element. */
  lemma AppendAssoc(a: seq<Move>, b: seq<Move>, c: seq<Move>)
    ensures (a + b) + c == a + (b + c)
  {
  }

  /**
   * `generate_sliding_moves`: the ray-walking generator the magic lookups
   * replaced, over the diagonal rays for a bishop, the straight ones for a
   * rook and all eight for a queen.
   */
  method GenerateSlidingMoves(st: State, before: seq<Move>, p: PieceType, pinned: seq<Bitboard>,
                              remedy: Bitboard, capOnly: bool) returns (moves: seq<Move>)
    requires Shaped(st) && MapReadable(st) && |pinned| == 64
    requires p == Queen || p == Rook || p == Bishop
    ensures moves == before + PieceMoves(st, p, pinned, remedy, capOnly)
  {
    moves := before;
    var pieces := PiecesOf(st, st.turn, p);
    ghost var total := before + PieceMoves(st, p, pinned, remedy, capOnly);
    while pieces != {}
      invariant moves + PieceMovesOver(st, p, pieces, pinned, remedy, capOnly) == total
      decreases |pieces|
    {
      var from := Lsb(pieces) as Square;
      var rest := pieces - {from};
      var possible := SlidingTargets(st, p, from, pinned, remedy, capOnly);
      ghost var mark := moves;
      moves := AppendTargetMoves(st, moves, from, p, possible);
      AppendAssoc(mark, TargetMoves(st, from, p, possible), PieceMovesOver(st, p, rest, pinned, remedy, capOnly));
      pieces := rest;
    }
  }

  /** The destinations of one slider in `generate_sliding_moves`: its rays, trimmed by the masks. */
  method SlidingTargets(st: State, p: PieceType, from: Square, pinned: seq<Bitboard>, remedy: Bitboard,
                        capOnly: bool) returns (possible: Bitboard)
    requires Shaped(st) && |pinned| == 64
    requires p == Queen || p == Rook || p == Bishop
    ensures possible == PieceTargets(st, p, from, pinned, remedy, capOnly)
  {
    possible := RayUnion(st, p, from);
    possible := possible * pinned[from] * remedy * Complement(Own(st));
    if capOnly {
      possible := possible * Enemy(st);
    }
  }

  /** The `for (dir_index : direction)` loop of `generate_sliding_moves`. */
  method RayUnion(st: State, p: PieceType, from: Square) returns (possible: Bitboard)
    requires Shaped(st) && (p == Queen || p == Rook || p == Bishop)
    ensures possible == PieceAttacks(p, from, st.all)
  {
    possible := {};
    var d := 0;
    while d < 8
      invariant 0 <= d <= 8
      invariant possible == RaysBelow(p, from, st.all, d)
    {
      if p == Queen || (p == Rook) == !Diagonal(d) {
        var ray := RayMask(d, from);
        var blockers := ray * st.all;
        if blockers != {} {
          possible := possible + Xor(ray, RayMask(d, (if d < 4 then Lsb(blockers) else Msb(blockers)) as Square));
        } else {
          possible := possible + ray;
        }
      }
      d := d + 1;
    }
    RaysBelowAll(p, from, st.all);
  }

  /** The union of the rays below `n` that a piece of type `p` walks. */
  function RaysBelow(p: PieceType, sq: Square, occ: Bitboard, n: int): Bitboard
    requires 0 <= n <= 8
  {
    if n == 0 then {}
    else RaysBelow(p, sq, occ, n - 1)
         + (if p == Queen || (p == Rook) == !Diagonal(n - 1) then RayAttacks(n - 1, sq, occ) else {})
  }

  /** Walking all eight directions gives the bishop, rook or queen attack set. */
  lemma RaysBelowAll(p: PieceType, sq: Square, occ: Bitboard)
    requires p == Queen || p == Rook || p == Bishop
    ensures RaysBelow(p, sq, occ, 8) == PieceAttacks(p, sq, occ)
  {
    var r := seq(8, d requires 0 <= d < 8 => RayAttacks(d, sq, occ));
    assert RaysBelow(p, sq, occ, 1) == (if p != Rook then r[0] else {});
    assert RaysBelow(p, sq, occ, 2) == RaysBelow(p, sq, occ, 1) + (if p != Bishop then r[1] else {});
    assert RaysBelow(p, sq, occ, 3) == RaysBelow(p, sq, occ, 2) + (if p != Rook then r[2] else {});
    assert RaysBelow(p, sq, occ, 4) == RaysBelow(p, sq, occ, 3) + (if p != Bishop then r[3] else {});
    assert RaysBelow(p, sq, occ, 5) == RaysBelow(p, sq, occ, 4) + (if p != Rook then r[4] else {});
    assert RaysBelow(p, sq, occ, 6) == RaysBelow(p, sq, occ, 5) + (if p != Bishop then r[5] else {});
    assert RaysBelow(p, sq, occ, 7) == RaysBelow(p, sq, occ, 6) + (if p != Rook then r[6] else {});
    assert RaysBelow(p, sq, occ, 8) == RaysBelow(p, sq, occ, 7) + (if p != Bishop then r[7] else {});
  }

  // ---------------------------------------------------------------
  // King moves (`generate_king_moves`)
  // ---------------------------------------------------------------

  /** `KING_ATTACKS[k] & ~own`, and only enemy pieces under `captures_only`. */
  function KingTargets(st: State, capOnly: bool): Bitboard
    requires Shaped(st) && st.pieces[BoardIndex(st.turn, King)] != {}
  {
    var possible := KingAttacks(KingSquare(st)) - Own(st);
    if capOnly then possible * Enemy(st) else possible
  }

  /** The king steps to the squares of `targets` the opponent does not attack. */
  function KingStepMoves(st: State, targets: Bitboard): seq<Move>
    requires Shaped(st) && MapReadable(st) && st.pieces[BoardIndex(st.turn, King)] != {}
    decreases |targets|
  {
    if targets == {} then []
    else
      var to := Lsb(targets) as Square;
      (if Attacked(st, to, Opponent(st.turn)) then []
       else [NewMove(st, KingSquare(st), to, King, PieceOn(st, to), NoPiece, false, false)])
      + KingStepMoves(st, targets - {to})
  }

  /** The kingside castling test: the right, an empty `LINE_BETWEEN[k+1][k+2]`, both squares unattacked. */
  predicate KingsideCastleAllowed(st: State)
    requires Ready(st)
  {
    var k := KingSquare(st);
    && KingsideRight(st.turn) in st.rights
    && LineBetween(k + 1, k + 2) * st.all == {}
    && !Attacked(st, k + 1, Opponent(st.turn))
    && !Attacked(st, k + 2, Opponent(st.turn))
  }

  /** The queenside test: the right, an empty `LINE_BETWEEN[k-1][k-3]`, `k-1` and `k-2` unattacked. */
  predicate QueensideCastleAllowed(st: State)
    requires Ready(st)
  {
    var k := KingSquare(st);
    && QueensideRight(st.turn) in st.rights
    && LineBetween(k - 1, k - 3) * st.all == {}
    && !Attacked(st, k - 1, Opponent(st.turn))
    && !Attacked(st, k - 2, Opponent(st.turn))
  }

  /** The castling moves: none while the king is attacked, else kingside then queenside. */
  function CastleMoves(st: State): seq<Move>
    requires Ready(st)
  {
    var k := KingSquare(st);
    if Attacked(st, k, Opponent(st.turn)) then []
    else
      (if KingsideCastleAllowed(st) then [NewMove(st, k, k + 2, King, NoPiece, NoPiece, true, false)] else [])
      + (if QueensideCastleAllowed(st) then [NewMove(st, k, k - 2, King, NoPiece, NoPiece, true, false)] else [])
  }

  function KingMoves(st: State, capOnly: bool): seq<Move>
    requires Ready(st)
  {
    KingStepMoves(st, KingTargets(st, capOnly)) + CastleMoves(st)
  }

  /** `generate_king_moves`. */
  method GenerateKingMoves(st: State, before: seq<Move>, capOnly: bool) returns (moves: seq<Move>)
    requires Ready(st)
    ensures moves == before + KingMoves(st, capOnly)
  {
    moves := AppendKingSteps(st, before, capOnly);
    moves := AppendCastles(st, moves);
    AppendAssoc(before, KingStepMoves(st, KingTargets(st, capOnly)), CastleMoves(st));
  }

  /** The `while (possible)` loop of `generate_king_moves`. */
  method AppendKingSteps(st: State, before: seq<Move>, capOnly: bool) returns (moves: seq<Move>)
    requires Ready(st)
    ensures moves == before + KingStepMoves(st, KingTargets(st, capOnly))
  {
    moves := before;
    var k := KingSquare(st);
    var other := Opponent(st.turn);
    var possible := KingAttacks(k) - Own(st);
    if capOnly {
      possible := possible * Enemy(st);
    }
    assert possible == KingTargets(st, capOnly);
    ghost var total := before + KingStepMoves(st, possible);
    while possible != {}
      invariant moves + KingStepMoves(st, possible) == total
      decreases |possible|
    {
      var to := Lsb(possible) as Square;
      var step := if !Attacked(st, to, other) then [NewMove(st, k, to, King, PieceOn(st, to), NoPiece, false, false)]
                  else [];
      assert KingStepMoves(st, possible) == step + KingStepMoves(st, possible - {to});
      AppendAssoc(moves, step, KingStepMoves(st, possible - {to}));
      moves := moves + step;
      possible := possible - {to};
    }
  }

  /** The castling tail of `generate_king_moves`. */
  method AppendCastles(st: State, before: seq<Move>) returns (moves: seq<Move>)
    requires Ready(st)
    ensures moves == before + CastleMoves(st)
  {
    moves := before;
    var k := KingSquare(st);
    if Attacked(st, k, Opponent(st.turn)) {
      return;
    }
    var kingside: seq<Move> := [];
    if KingsideCastleAllowed(st) {
      kingside := [NewMove(st, k, k + 2, King, NoPiece, NoPiece, true, false)];
    }
    var queenside: seq<Move> := [];
    if QueensideCastleAllowed(st) {
      queenside := [NewMove(st, k, k - 2, King, NoPiece, NoPiece, true, false)];
    }
    AppendAssoc(before, kingside, queenside);
    moves := before + kingside + queenside;
  }

  // ---------------------------------------------------------------
  // Pawn moves
  // ---------------------------------------------------------------

  function PushStep(c: Color): int
  {
    if c == White then 8 else -8
  }

  function StartRank(c: Color): int
  {
    if c == White then 1 else 6
  }

  /** The rank a pawn pushes from to promote. */
  function PromotionRank(c: Color): int
  {
    if c == White then 6 else 1
  }

  /** The four promotions of one pawn move, queen first. */
  function Promotions(st: State, from: Square, to: Square, captured: PieceType): seq<Move>
  {
    [NewMove(st, from, to, Pawn, captured, Queen, false, false),
     NewMove(st, from, to, Pawn, captured, Rook, false, false),
     NewMove(st, from, to, Pawn, captured, Bishop, false, false),
     NewMove(st, from, to, Pawn, captured, Knight, false, false)]
  }

  /**
   * The pushes of the pawn on `from`: a single step onto an empty square
   * (four promotions from the promotion rank) when the pin and remedy masks
   * allow it, and, behind an empty single-step square, the double step from
   * the start rank onto an empty square.
   */
  function PushMoves(st: State, from: Square, pinned: seq<Bitboard>, remedy: Bitboard): seq<Move>
    requires Shaped(st) && |pinned| == 64
  {
    var to := from + PushStep(st.turn);
    if !(0 <= to < 64) || to in st.all then []
    else
      (if to in pinned[from] * remedy then
         (if Rank(from) == PromotionRank(st.turn) then Promotions(st, from, to, NoPiece)
          else [NewMove(st, from, to, Pawn, NoPiece, NoPiece, false, false)])
       else [])
      + (if Rank(from) == StartRank(st.turn) && from + 2 * PushStep(st.turn) !in st.all
            && from + 2 * PushStep(st.turn) in pinned[from] * remedy
         then [NewMove(st, from, from + 2 * PushStep(st.turn), Pawn, NoPiece, NoPiece, false, false)]
         else [])
  }

  function PushesOver(st: State, froms: Bitboard, pinned: seq<Bitboard>, remedy: Bitboard): seq<Move>
    requires Shaped(st) && |pinned| == 64
    decreases |froms|
  {
    if froms == {} then []
    else
      var from := Lsb(froms) as Square;
      PushMoves(st, from, pinned, remedy) + PushesOver(st, froms - {from}, pinned, remedy)
  }

  /** `generate_pawn_pushes`. */
  method GeneratePawnPushes(st: State, before: seq<Move>, pinned: seq<Bitboard>, remedy: Bitboard)
    returns (moves: seq<Move>)
    requires Shaped(st) && |pinned| == 64
    ensures moves == before + PushesOver(st, PiecesOf(st, st.turn, Pawn), pinned, remedy)
  {
    moves := before;
    var pawns := PiecesOf(st, st.turn, Pawn);
    ghost var total := before + PushesOver(st, pawns, pinned, remedy);
    while pawns != {}
      invariant moves + PushesOver(st, pawns, pinned, remedy) == total
      decreases |pawns|
    {
      var from := Lsb(pawns) as Square;
      ghost var mark := moves;
      moves := AppendPushes(st, moves, from, pinned, remedy);
      AppendAssoc(mark, PushMoves(st, from, pinned, remedy), PushesOver(st, pawns - {from}, pinned, remedy));
      pawns := pawns - {from};
    }
  }

  /** The body of the `generate_pawn_pushes` loop for the pawn on `from`. */
  method AppendPushes(st: State, before: seq<Move>, from: Square, pinned: seq<Bitboard>, remedy: Bitboard)
    returns (moves: seq<Move>)
    requires Shaped(st) && |pinned| == 64
    ensures moves == before + PushMoves(st, from, pinned, remedy)
  {
    moves := before;
    var step: int := if st.turn == White then 8 else -8;
    var startRank := if st.turn == White then 1 else 6;
    var promotionRank := if st.turn == White then 6 else 1;
    var rank := from / 8;
    var to := from + step;
    if 0 <= to < 64 {
      if to !in st.all {
        if to in pinned[from] * remedy {
          if rank == promotionRank {
            moves := moves + Promotions(st, from, to, NoPiece);
          } else {
            moves := moves + [NewMove(st, from, to, Pawn, NoPiece, NoPiece, false, false)];
          }
        }
        ghost var mark := moves;
        if rank == startRank {
          var to2 := from + 2 * step;
          if to2 !in st.all {
            if to2 in pinned[from] * remedy {
              moves := moves + [NewMove(st, from, to2, Pawn, NoPiece, NoPiece, false, false)];
            }
          }
        }
        AppendAssoc(before, mark[|before|..], moves[|mark|..]);
      }
    }
  }

  /** `generate_pawn_captures` promotes on the last rank of the side to move. */
  predicate PromotionSquare(c: Color, to: Square)
  {
    (c == White && to >= 56) || (c == Black && to <= 7)
  }

  /** `PAWN_ATTACKS[turn][from] & enemy & pinned_info[from] & remedy`. */
  function CaptureTargets(st: State, from: Square, pinned: seq<Bitboard>, remedy: Bitboard): Bitboard
    requires Shaped(st) && |pinned| == 64
  {
    PawnAttacks(ColorIndex(st.turn), from) * Enemy(st) * pinned[from] * remedy
  }

  /** The captures of the pawn on `from` onto `targets`, four promotions each on the last rank. */
  function CaptureMovesTo(st: State, from: Square, targets: Bitboard): seq<Move>
    requires Shaped(st) && MapReadable(st)
    decreases |targets|
  {
    if targets == {} then []
    else
      var to := Lsb(targets) as Square;
      (if PromotionSquare(st.turn, to) then Promotions(st, from, to, PieceOn(st, to))
       else [NewMove(st, from, to, Pawn, PieceOn(st, to), NoPiece, false, false)])
      + CaptureMovesTo(st, from, targets - {to})
  }

  /** The square of the pawn an en-passant capture removes: behind the target square. */
  function EnPassantVictim(c: Color, ep: int): int
  {
    if c == White then ep - 8 else ep + 8
  }

  /**
   * The horizontal pin test for en passant with the king on the capturing
   * pawn's rank: with the capturing and the captured pawn both taken off,
   * the first piece from the king towards them along the rank is an enemy
   * rook or queen.
   */
  predicate RankExposed(st: State, k: Square, from: Square)
    requires Shaped(st) && 0 <= st.enPassant < 64 && st.enPassant in PawnAttacks(ColorIndex(st.turn), from)
  {
    var d := if k > from then 7 else 3;
    var victim := EnPassantVictim(st.turn, st.enPassant) as Square;
    var ray := Xor(RayMask(d, k), {from, victim}) * st.all;
    var next := if d == 7 then Msb(ray) else Lsb(ray);
    next != -1 && next in PiecesOf(st, Opponent(st.turn), Rook) + PiecesOf(st, Opponent(st.turn), Queen)
  }

  /** The en-passant capture of the pawn on `from`, if the masks allow it and no rank pin forbids it. */
  function EnPassantMoves(st: State, k: Square, from: Square, pinned: seq<Bitboard>, remedy: Bitboard): seq<Move>
    requires Shaped(st) && |pinned| == 64 && -1 <= st.enPassant < 64
  {
    if st.enPassant == -1 || st.enPassant !in PawnAttacks(ColorIndex(st.turn), from) * pinned[from] * remedy then []
    else if Rank(k) != Rank(from) || !RankExposed(st, k, from) then
      [NewMove(st, from, st.enPassant, Pawn, Pawn, NoPiece, false, true)]
    else []
  }

  function CapturesOver(st: State, k: Square, froms: Bitboard, pinned: seq<Bitboard>, remedy: Bitboard): seq<Move>
    requires Shaped(st) && MapReadable(st) && |pinned| == 64 && -1 <= st.enPassant < 64
    decreases |froms|
  {
    if froms == {} then []
    else
      var from := Lsb(froms) as Square;
      CaptureMovesTo(st, from, CaptureTargets(st, from, pinned, remedy))
      + EnPassantMoves(st, k, from, pinned, remedy)
      + CapturesOver(st, k, froms - {from}, pinned, remedy)
  }

  /** `generate_pawn_captures`. */
  method GeneratePawnCaptures(st: State, before: seq<Move>, k: Square, pinned: seq<Bitboard>, remedy: Bitboard)
    returns (moves: seq<Move>)
    requires Shaped(st) && MapReadable(st) && |pinned| == 64 && -1 <= st.enPassant < 64
    ensures moves == before + CapturesOver(st, k, PiecesOf(st, st.turn, Pawn), pinned, remedy)
  {
    moves := before;
    var pawns := PiecesOf(st, st.turn, Pawn);
    var enemy := Enemy(st);
    ghost var total := before + CapturesOver(st, k, pawns, pinned, remedy);
    while pawns != {}
      invariant moves + CapturesOver(st, k, pawns, pinned, remedy) == total
      decreases |pawns|
    {
      var from := Lsb(pawns) as Square;
      var rest := pawns - {from};
      var attack := PawnAttacks(ColorIndex(st.turn), from);
      var capture := attack * enemy * pinned[from] * remedy;
      ghost var mark := moves;
      moves := AppendPawnCaptures(st, moves, from, capture);
      ghost var middle := moves;
      moves := AppendEnPassant(st, moves, k, from, pinned, remedy);
      ghost var ep := EnPassantMoves(st, k, from, pinned, remedy);
      ghost var tail := CapturesOver(st, k, rest, pinned, remedy);
      ghost var caps := CaptureMovesTo(st, from, CaptureTargets(st, from, pinned, remedy));
      assert CapturesOver(st, k, pawns, pinned, remedy) == caps + ep + tail;
      AppendAssoc(mark, caps, ep);
      AppendAssoc(mark + caps, ep, tail);
      AppendAssoc(mark, caps + ep, tail);
      pawns := rest;
    }
  }

  /** The inner `while (capture_bb)` loop: one capture per target, four on the last rank. */
  method AppendPawnCaptures(st: State, before: seq<Move>, from: Square, targets: Bitboard) returns (moves: seq<Move>)
    requires Shaped(st) && MapReadable(st)
    ensures moves == before + CaptureMovesTo(st, from, targets)
  {
    moves := before;
    var capture := targets;
    ghost var total := before + CaptureMovesTo(st, from, capture);
    while capture != {}
      invariant moves + CaptureMovesTo(st, from, capture) == total
      decreases |capture|
    {
      var to := Lsb(capture) as Square;
      var captured := PieceOn(st, to);
      var step;
      if (st.turn == White && to >= 56) || (st.turn == Black && to <= 7) {
        step := Promotions(st, from, to, captured);
      } else {
        step := [NewMove(st, from, to, Pawn, captured, NoPiece, false, false)];
      }
      assert CaptureMovesTo(st, from, capture) == step + CaptureMovesTo(st, from, capture - {to});
      AppendAssoc(moves, step, CaptureMovesTo(st, from, capture - {to}));
      moves := moves + step;
      capture := capture - {to};
    }
  }

  /** The en-passant tail of the `generate_pawn_captures` loop for the pawn on `from`. */
  method AppendEnPassant(st: State, before: seq<Move>, k: Square, from: Square, pinned: seq<Bitboard>,
                         remedy: Bitboard) returns (moves: seq<Move>)
    requires Shaped(st) && |pinned| == 64 && -1 <= st.enPassant < 64
    ensures moves == before + EnPassantMoves(st, k, from, pinned, remedy)
  {
    moves := before;
    var ep := st.enPassant;
    if ep != -1 && ep in PawnAttacks(ColorIndex(st.turn), from) * pinned[from] * remedy {
      if k / 8 != from / 8 {
        moves := moves + [NewMove(st, from, ep, Pawn, Pawn, NoPiece, false, true)];
      } else {
        if !RankExposed(st, k, from) {
          moves := moves + [NewMove(st, from, ep, Pawn, Pawn, NoPiece, false, true)];
        }
      }
    }
  }

  /** `generate_pawn_moves`: pushes unless `captures_only`, then captures. */
  function PawnMoves(st: State, k: Square, pinned: seq<Bitboard>, remedy: Bitboard, capOnly: bool): seq<Move>
    requires Shaped(st) && MapReadable(st) && |pinned| == 64 && -1 <= st.enPassant < 64
  {
    (if capOnly then [] else PushesOver(st, PiecesOf(st, st.turn, Pawn), pinned, remedy))
    + CapturesOver(st, k, PiecesOf(st, st.turn, Pawn), pinned, remedy)
  }

  method GeneratePawnMoves(st: State, before: seq<Move>, k: Square, pinned: seq<Bitboard>, remedy: Bitboard,
                           capOnly: bool) returns (moves: seq<Move>)
    requires Shaped(st) && MapReadable(st) && |pinned| == 64 && -1 <= st.enPassant < 64
    ensures moves == before + PawnMoves(st, k, pinned, remedy, capOnly)
  {
    moves := before;
    ghost var pushes := if capOnly then [] else PushesOver(st, PiecesOf(st, st.turn, Pawn), pinned, remedy);
    if !capOnly {
      moves := GeneratePawnPushes(st, moves, pinned, remedy);
    }
    assert moves == before + pushes;
    moves := GeneratePawnCaptures(st, moves, k, pinned, remedy);
    AppendAssoc(before, pushes, CapturesOver(st, k, PiecesOf(st, st.turn, Pawn), pinned, remedy));
  }

  // ---------------------------------------------------------------
  // generate_moves
  // ---------------------------------------------------------------

  /** `count_attacker_on_square(king, opponent)` with its defaults: bound 2, square wanted. */
  function CheckersOf(st: State): CheckInfo
    requires Shaped(st) && st.pieces[BoardIndex(st.turn, King)] != {}
  {
    AttackInfo(st, KingSquare(st), Opponent(st.turn), 2, true)
  }

  /** A queen, rook or bishop: a checker whose line to the king can be blocked. */
  predicate Slider(p: PieceType)
  {
    p == Queen || p == Rook || p == Bishop
  }

  /** The remedy mask of a single check from `a`: the checker, and the line to it for a slider. */
  function CheckRemedy(st: State, a: Square): Bitboard
    requires Ready(st)
  {
    {a} + (if Slider(PieceOn(st, a)) then LineBetween(KingSquare(st), a) else {})
  }

  /** The pawns' remedy mask: the en-passant square joins it when the checker is a pawn. */
  function PawnRemedy(st: State, a: Square): Bitboard
    requires Ready(st)
  {
    CheckRemedy(st, a) + (if st.enPassant != -1 && PieceOn(st, a) == Pawn then {st.enPassant as Square} else {})
  }

  /**
   * The list `generate_moves` returns: king moves only in double check; in
   * single check the king moves, then the other pieces restricted to the
   * remedy mask; otherwise queen, rook, bishop, knight, pawn and king moves.
   */
  function LegalMoves(st: State, capOnly: bool): seq<Move>
    requires Ready(st)
  {
    var k := KingSquare(st);
    var pinned := PinnedInfo(st, k);
    var info := CheckersOf(st);
    if info.count > 1 then KingMoves(st, capOnly)
    else if info.count == 1 then
      AttackerSquareOnBoard(st, k, Opponent(st.turn), 2);
      var a := info.attackerSquare as Square;
      KingMoves(st, capOnly) + OfficerMoves(st, pinned, CheckRemedy(st, a), capOnly)
      + PawnMoves(st, k, pinned, PawnRemedy(st, a), capOnly)
    else
      OfficerMoves(st, pinned, AllSquares(), capOnly) + PawnMoves(st, k, pinned, AllSquares(), capOnly)
      + KingMoves(st, capOnly)
  }

  /** `generate_moves(board, captures_only)`. */
  method GenerateMoves(st: State, capOnly: bool) returns (moves: seq<Move>)
    requires Ready(st)
    ensures moves == LegalMoves(st, capOnly)
  {
    var k := KingSquare(st);
    var pinned := CalculatePinnedPieces(st, k);
    var info := AttackInfo(st, k, Opponent(st.turn), 2, true);
    if info.count > 1 {
      moves := GenerateKingMoves(st, [], capOnly);
    } else if info.count == 1 {
      AttackerSquareOnBoard(st, k, Opponent(st.turn), 2);
      moves := GenerateEvasions(st, pinned, info.attackerSquare as Square, capOnly);
    } else {
      moves := GenerateUnchecked(st, pinned, capOnly);
    }
  }

  /** The single-check branch of `generate_moves`, with the checker on `a`. */
  method GenerateEvasions(st: State, pinned: seq<Bitboard>, a: Square, capOnly: bool) returns (moves: seq<Move>)
    requires Ready(st) && |pinned| == 64
    ensures moves == KingMoves(st, capOnly) + OfficerMoves(st, pinned, CheckRemedy(st, a), capOnly)
                     + PawnMoves(st, KingSquare(st), pinned, PawnRemedy(st, a), capOnly)
  {
    var k := KingSquare(st);
    moves := GenerateKingMoves(st, [], capOnly);
    ghost var king := KingMoves(st, capOnly);
    assert moves == king;
    // the remedy masks are computed as `generate_moves` computes them
    var remedy := CheckRemedy(st, a);
    moves := GenerateOfficerMoves(st, moves, pinned, remedy, capOnly);
    ghost var officers := OfficerMoves(st, pinned, remedy, capOnly);
    remedy := PawnRemedy(st, a);
    moves := GeneratePawnMoves(st, moves, k, pinned, remedy, capOnly);
    AppendAssoc(king, officers, PawnMoves(st, k, pinned, remedy, capOnly));
  }

  /** The branch of `generate_moves` for a king not in check. */
  method GenerateUnchecked(st: State, pinned: seq<Bitboard>, capOnly: bool) returns (moves: seq<Move>)
    requires Ready(st) && |pinned| == 64
    ensures moves == OfficerMoves(st, pinned, AllSquares(), capOnly)
                     + PawnMoves(st, KingSquare(st), pinned, AllSquares(), capOnly) + KingMoves(st, capOnly)
  {
    ghost var officers := OfficerMoves(st, pinned, AllSquares(), capOnly);
    ghost var pawns := PawnMoves(st, KingSquare(st), pinned, AllSquares(), capOnly);
    moves := GenerateOfficerMoves(st, [], pinned, AllSquares(), capOnly);
    assert moves == officers;
    moves := GeneratePawnMoves(st, moves, KingSquare(st), pinned, AllSquares(), capOnly);
    assert moves == officers + pawns;
    moves := GenerateKingMoves(st, moves, capOnly);
  }

  /** The queen, rook, bishop and knight generators called in turn with one remedy mask. */
  method GenerateOfficerMoves(st: State, before: seq<Move>, pinned: seq<Bitboard>, remedy: Bitboard, capOnly: bool)
    returns (moves: seq<Move>)
    requires Shaped(st) && MapReadable(st) && |pinned| == 64
    ensures moves == before + OfficerMoves(st, pinned, remedy, capOnly)
  {
    ghost var q := PieceMoves(st, Queen, pinned, remedy, capOnly);
    ghost var r := PieceMoves(st, Rook, pinned, remedy, capOnly);
    ghost var b := PieceMoves(st, Bishop, pinned, remedy, capOnly);
    ghost var n := PieceMoves(st, Knight, pinned, remedy, capOnly);
    moves := GeneratePieceMoves(st, before, Queen, pinned, remedy, capOnly);
    moves := GeneratePieceMoves(st, moves, Rook, pinned, remedy, capOnly);
    AppendAssoc(before, q, r);
    moves := GeneratePieceMoves(st, moves, Bishop, pinned, remedy, capOnly);
    AppendAssoc(before, q + r, b);
    moves := GeneratePieceMoves(st, moves, Knight, pinned, remedy, capOnly);
    AppendAssoc(before, q + r + b, n);
  }

  /** `generate_captures`: the list with `captures_only` set. */
  method GenerateCaptures(st: State) returns (moves: seq<Move>)
    requires Ready(st)
    ensures moves == LegalMoves(st, true)
  {
    moves := GenerateMoves(st, true);
  }
}
