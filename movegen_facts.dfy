// What the move lists of `MoveGen` guarantee about each move in them: the
// rules src/MoveGenerator.cpp enforces, read back from the generator
// functions one list at a time and then for the whole of `LegalMoves`.
module MoveGenFacts {
  import opened Bits
  import opened Pieces
  import opened Moves
  import opened Tables
  import opened Position
  import opened Attacks
  import opened MoveGen

  /** The mover and the undo snapshot every constructed move carries. */
  predicate Stamped(st: State, m: Move)
  {
    m.color == st.turn && m.oldRights == RightsString(st.rights) && m.oldEnPassant == st.enPassant
  }

  /** A move that is neither a castle, nor en passant, nor a promotion, capturing what stands on its target. */
  predicate Plain(st: State, m: Move)
    requires Shaped(st) && MapReadable(st)
  {
    && 0 <= m.to < 64
    && m.captured == PieceOn(st, m.to as Square)
    && m.promotion == NoPiece && !m.isCastle && !m.isEnPassant
    && Stamped(st, m)
  }

  // ---------------------------------------------------------------
  // Queen, rook, bishop and knight moves
  // ---------------------------------------------------------------

  /** A move of `TargetMoves` goes from `from` to one of the targets. */
  lemma {:induction false} TargetMovesMember(st: State, from: Square, p: PieceType, targets: Bitboard, m: Move)
    requires Shaped(st) && MapReadable(st) && m in TargetMoves(st, from, p, targets)
    ensures m.from == from && m.to in targets && m.moved == p && Plain(st, m)
    decreases |targets|
  {
    var to := Lsb(targets) as Square;
    if m != NewMove(st, from, to, p, PieceOn(st, to), NoPiece, false, false) {
      TargetMovesMember(st, from, p, targets - {to}, m);
    }
  }

  /** A move of `PieceMovesOver` starts on one of the scanned squares and lands on that piece's targets. */
  lemma {:induction false} PieceMovesOverMember(st: State, p: PieceType, froms: Bitboard, pinned: seq<Bitboard>,
                                                remedy: Bitboard, capOnly: bool, m: Move)
    requires Shaped(st) && MapReadable(st) && |pinned| == 64
    requires m in PieceMovesOver(st, p, froms, pinned, remedy, capOnly)
    ensures m.from in froms && m.moved == p && Plain(st, m)
    ensures m.to in PieceTargets(st, p, m.from as Square, pinned, remedy, capOnly)
    decreases |froms|
  {
    var from := Lsb(froms) as Square;
    var here := TargetMoves(st, from, p, PieceTargets(st, p, from, pinned, remedy, capOnly));
    if m in here {
      TargetMovesMember(st, from, p, PieceTargets(st, p, from, pinned, remedy, capOnly), m);
    } else {
      PieceMovesOverMember(st, p, froms - {from}, pinned, remedy, capOnly, m);
    }
  }

  /**
   * A move of the queen, rook, bishop and knight generators: a piece of the
   * mover's on `from`, a target it attacks that holds no own piece, inside
   * the remedy mask and its pin mask, an enemy piece under `captures_only`,
   * and no move at all for a pinned knight.
   */
  lemma OfficerMovesMember(st: State, pinned: seq<Bitboard>, remedy: Bitboard, capOnly: bool, m: Move)
    requires Shaped(st) && MapReadable(st) && |pinned| == 64
    requires m in OfficerMoves(st, pinned, remedy, capOnly)
    ensures Officer(m.moved) && m.from in PiecesOf(st, st.turn, m.moved) && Plain(st, m)
    ensures m.to in PieceAttacks(m.moved, m.from as Square, st.all)
    ensures m.to !in Own(st) && m.to in remedy && m.to in pinned[m.from]
    ensures capOnly ==> m.to in Enemy(st)
    ensures m.moved == Knight ==> pinned[m.from] == AllSquares()
  {
    var q := PieceMoves(st, Queen, pinned, remedy, capOnly);
    var r := PieceMoves(st, Rook, pinned, remedy, capOnly);
    var b := PieceMoves(st, Bishop, pinned, remedy, capOnly);
    var n := PieceMoves(st, Knight, pinned, remedy, capOnly);
    assert m in q + r + b + n;
    var p := if m in q then Queen else if m in r then Rook else if m in b then Bishop else Knight;
    assert m in PieceMovesOver(st, p, PiecesOf(st, st.turn, p), pinned, remedy, capOnly);
    PieceMovesOverMember(st, p, PiecesOf(st, st.turn, p), pinned, remedy, capOnly, m);
    PieceTargetsBounds(st, p, m.from as Square, pinned, remedy, capOnly);
  }

  /** The targets of one piece, bounded by its attacks and by every mask `PieceTargets` applies. */
  lemma PieceTargetsBounds(st: State, p: PieceType, from: Square, pinned: seq<Bitboard>, remedy: Bitboard,
                           capOnly: bool)
    requires Shaped(st) && |pinned| == 64 && Officer(p)
    ensures var t := PieceTargets(st, p, from, pinned, remedy, capOnly);
            && t <= PieceAttacks(p, from, st.all) && t * Own(st) == {} && t <= remedy && t <= pinned[from]
            && (capOnly ==> t <= Enemy(st))
            && (p == Knight && t != {} ==> pinned[from] == AllSquares())
  {
  }

  // ---------------------------------------------------------------
  // King moves
  // ---------------------------------------------------------------

  /** A king step lands on one of the targets, on a square the opponent does not attack. */
  lemma {:induction false} KingStepMember(st: State, targets: Bitboard, m: Move)
    requires Shaped(st) && MapReadable(st) && st.pieces[BoardIndex(st.turn, King)] != {}
    requires m in KingStepMoves(st, targets)
    ensures m.from == KingSquare(st) && m.moved == King && Plain(st, m)
    ensures m.to in targets && !Attacked(st, m.to as Square, Opponent(st.turn))
    decreases |targets|
  {
    var to := Lsb(targets) as Square;
    var rest := KingStepMoves(st, targets - {to});
    if m in rest {
      KingStepMember(st, targets - {to}, m);
    }
  }

  /**
   * A castling move: the king from its square two files over, with the king
   * not attacked and the right, the empty squares and the unattacked squares
   * of that side all present.
   */
  predicate CastleOf(st: State, m: Move)
    requires Ready(st)
  {
    var k := KingSquare(st);
    && m.moved == King && m.from == k && m.isCastle && !m.isEnPassant
    && m.captured == NoPiece && m.promotion == NoPiece && Stamped(st, m)
    && !Attacked(st, k, Opponent(st.turn))
    && ((m.to == k + 2 && KingsideCastleAllowed(st)) || (m.to == k - 2 && QueensideCastleAllowed(st)))
  }

  /**
   * The king list holds steps to unattacked squares around the king that hold
   * no own piece (enemy pieces only under `captures_only`) and castles.
   */
  lemma KingMovesMember(st: State, capOnly: bool, m: Move)
    requires Ready(st) && m in KingMoves(st, capOnly)
    ensures m.moved == King && m.from == KingSquare(st) && Stamped(st, m)
    ensures !m.isCastle ==> && Plain(st, m) && m.to in KingAttacks(KingSquare(st)) && m.to !in Own(st)
                            && !Attacked(st, m.to as Square, Opponent(st.turn))
                            && (capOnly ==> m.to in Enemy(st))
    ensures m.isCastle ==> CastleOf(st, m)
  {
    if m in KingStepMoves(st, KingTargets(st, capOnly)) {
      KingStepMember(st, KingTargets(st, capOnly), m);
    }
  }

  // ---------------------------------------------------------------
  // Pawn moves
  // ---------------------------------------------------------------

  /**
   * A pawn push: a step onto an empty square inside the pin and remedy
   * masks, or the double step from the start rank over an empty square; the
   * single step from the promotion rank promotes to an officer.
   */
  predicate PushOf(st: State, m: Move, pinned: seq<Bitboard>, remedy: Bitboard)
    requires Shaped(st) && |pinned| == 64
  {
    var step := PushStep(st.turn);
    && m.moved == Pawn && m.captured == NoPiece && !m.isCastle && !m.isEnPassant && Stamped(st, m)
    && 0 <= m.from < 64 && 0 <= m.to < 64 && m.to !in st.all && m.to in pinned[m.from] * remedy
    && 0 <= m.from + step < 64 && m.from + step !in st.all
    && (m.to == m.from + step || (m.to == m.from + 2 * step && Rank(m.from) == StartRank(st.turn)))
    && (m.promotion != NoPiece <==> m.to == m.from + step && Rank(m.from) == PromotionRank(st.turn))
    && (m.promotion != NoPiece ==> Officer(m.promotion))
  }

  /** A pawn capture onto an enemy piece inside the masks, promoting to an officer on the last rank. */
  predicate CaptureOf(st: State, m: Move, pinned: seq<Bitboard>, remedy: Bitboard)
    requires Shaped(st) && MapReadable(st) && |pinned| == 64
  {
    && m.moved == Pawn && !m.isCastle && !m.isEnPassant && Stamped(st, m)
    && 0 <= m.from < 64 && m.to in CaptureTargets(st, m.from, pinned, remedy)
    && m.captured == PieceOn(st, m.to as Square)
    && (m.promotion != NoPiece <==> PromotionSquare(st.turn, m.to as Square))
    && (m.promotion != NoPiece ==> Officer(m.promotion))
  }

  /**
   * An en-passant capture onto the en-passant square inside the masks, not
   * taken when the king shares the capturing pawn's rank and the two pawns
   * leaving it would expose the king to a rook or queen.
   */
  predicate EnPassantOf(st: State, m: Move, k: Square, pinned: seq<Bitboard>, remedy: Bitboard)
    requires Shaped(st) && |pinned| == 64
  {
    && m.moved == Pawn && m.isEnPassant && !m.isCastle && m.captured == Pawn && m.promotion == NoPiece
    && Stamped(st, m) && 0 <= m.from < 64 && 0 <= st.enPassant < 64 && m.to == st.enPassant
    && st.enPassant in PawnAttacks(ColorIndex(st.turn), m.from) * pinned[m.from] * remedy
    && (Rank(k) == Rank(m.from) ==> !RankExposed(st, k, m.from))
  }

  lemma PushMovesMember(st: State, from: Square, pinned: seq<Bitboard>, remedy: Bitboard, m: Move)
    requires Shaped(st) && |pinned| == 64 && m in PushMoves(st, from, pinned, remedy)
    ensures m.from == from && PushOf(st, m, pinned, remedy)
  {
  }

  lemma {:induction false} PushesOverMember(st: State, froms: Bitboard, pinned: seq<Bitboard>, remedy: Bitboard,
                                            m: Move)
    requires Shaped(st) && |pinned| == 64 && m in PushesOver(st, froms, pinned, remedy)
    ensures m.from in froms && PushOf(st, m, pinned, remedy)
    decreases |froms|
  {
    var from := Lsb(froms) as Square;
    if m in PushMoves(st, from, pinned, remedy) {
      PushMovesMember(st, from, pinned, remedy, m);
    } else {
      PushesOverMember(st, froms - {from}, pinned, remedy, m);
    }
  }

  lemma {:induction false} CaptureMovesToMember(st: State, from: Square, targets: Bitboard, m: Move)
    requires Shaped(st) && MapReadable(st) && m in CaptureMovesTo(st, from, targets)
    ensures m.from == from && m.to in targets && m.moved == Pawn && !m.isCastle && !m.isEnPassant
    ensures Stamped(st, m) && m.captured == PieceOn(st, m.to as Square)
    ensures m.promotion != NoPiece <==> PromotionSquare(st.turn, m.to as Square)
    ensures m.promotion != NoPiece ==> Officer(m.promotion)
    decreases |targets|
  {
    var to := Lsb(targets) as Square;
    var head := if PromotionSquare(st.turn, to) then Promotions(st, from, to, PieceOn(st, to))
                else [NewMove(st, from, to, Pawn, PieceOn(st, to), NoPiece, false, false)];
    assert CaptureMovesTo(st, from, targets) == head + CaptureMovesTo(st, from, targets - {to});
    if m in head {
      if PromotionSquare(st.turn, to) {
        PromotionsMember(st, from, to, PieceOn(st, to), m);
      }
    } else {
      CaptureMovesToMember(st, from, targets - {to}, m);
    }
  }

  /** The four promotions of one pawn move. */
  lemma PromotionsMember(st: State, from: Square, to: Square, captured: PieceType, m: Move)
    requires m in Promotions(st, from, to, captured)
    ensures m.from == from && m.to == to && m.moved == Pawn && m.captured == captured
    ensures Officer(m.promotion) && !m.isCastle && !m.isEnPassant && Stamped(st, m)
  {
  }

  lemma EnPassantMember(st: State, k: Square, from: Square, pinned: seq<Bitboard>, remedy: Bitboard, m: Move)
    requires Shaped(st) && |pinned| == 64 && -1 <= st.enPassant < 64
    requires m in EnPassantMoves(st, k, from, pinned, remedy)
    ensures m.from == from && EnPassantOf(st, m, k, pinned, remedy)
  {
  }

  lemma {:induction false} CapturesOverMember(st: State, k: Square, froms: Bitboard, pinned: seq<Bitboard>,
                                              remedy: Bitboard, m: Move)
    requires Shaped(st) && MapReadable(st) && |pinned| == 64 && -1 <= st.enPassant < 64
    requires m in CapturesOver(st, k, froms, pinned, remedy)
    ensures m.from in froms
    ensures CaptureOf(st, m, pinned, remedy) || EnPassantOf(st, m, k, pinned, remedy)
    decreases |froms|
  {
    var from := Lsb(froms) as Square;
    var caps := CaptureMovesTo(st, from, CaptureTargets(st, from, pinned, remedy));
    var ep := EnPassantMoves(st, k, from, pinned, remedy);
    if m in caps {
      CaptureMovesToMember(st, from, CaptureTargets(st, from, pinned, remedy), m);
    } else if m in ep {
      EnPassantMember(st, k, from, pinned, remedy, m);
    } else {
      CapturesOverMember(st, k, froms - {from}, pinned, remedy, m);
    }
  }

  /** The pawn list: pushes (none under `captures_only`), captures and en passant of the mover's pawns. */
  lemma PawnMovesMember(st: State, k: Square, pinned: seq<Bitboard>, remedy: Bitboard, capOnly: bool, m: Move)
    requires Shaped(st) && MapReadable(st) && |pinned| == 64 && -1 <= st.enPassant < 64
    requires m in PawnMoves(st, k, pinned, remedy, capOnly)
    ensures m.from in PiecesOf(st, st.turn, Pawn)
    ensures || (!capOnly && PushOf(st, m, pinned, remedy))
            || CaptureOf(st, m, pinned, remedy)
            || EnPassantOf(st, m, k, pinned, remedy)
  {
    var pawns := PiecesOf(st, st.turn, Pawn);
    if m in CapturesOver(st, k, pawns, pinned, remedy) {
      CapturesOverMember(st, k, pawns, pinned, remedy, m);
    } else {
      PushesOverMember(st, pawns, pinned, remedy, m);
    }
  }

  // ---------------------------------------------------------------
  // The list `generate_moves` returns
  // ---------------------------------------------------------------

  /** `m` is in the officer or pawn list built with the given remedy masks. */
  predicate InOtherLists(st: State, capOnly: bool, m: Move, officers: Bitboard, pawns: Bitboard)
    requires Ready(st)
  {
    var k := KingSquare(st);
    m in OfficerMoves(st, PinnedInfo(st, k), officers, capOnly) || m in PawnMoves(st, k, PinnedInfo(st, k), pawns, capOnly)
  }

  /**
   * Where a legal move comes from: the king list, or the other lists with no
   * mask when the king is not in check and with the remedy masks of the one
   * checker in single check.
   */
  lemma LegalMovesSplit(st: State, capOnly: bool, m: Move)
    requires Ready(st) && m in LegalMoves(st, capOnly)
    ensures var info := CheckersOf(st);
            || m in KingMoves(st, capOnly)
            || (info.count == 0 && InOtherLists(st, capOnly, m, AllSquares(), AllSquares()))
            || (info.count == 1 && 0 <= info.attackerSquare < 64
                && InOtherLists(st, capOnly, m, CheckRemedy(st, info.attackerSquare as Square),
                                PawnRemedy(st, info.attackerSquare as Square)))
  {
    var k := KingSquare(st);
    AttackInfoBound(st, k, Opponent(st.turn), 2, true);
    AttackerSquareOnBoard(st, k, Opponent(st.turn), 2);
  }

  /** The moves of the non-king lists: an officer or pawn move of the mover's, inside its pin mask. */
  lemma OtherListsMember(st: State, capOnly: bool, m: Move, officers: Bitboard, pawns: Bitboard)
    requires Ready(st) && InOtherLists(st, capOnly, m, officers, pawns)
    ensures Officer(m.moved) || m.moved == Pawn
    ensures !m.isCastle && Stamped(st, m) && 0 <= m.from < 64 && 0 <= m.to < 64
    ensures m.from in PiecesOf(st, st.turn, m.moved)
    ensures m.to in PinnedInfo(st, KingSquare(st))[m.from]
    ensures Officer(m.moved) ==> && Plain(st, m) && m.to in officers && m.to !in Own(st)
                                 && (capOnly ==> m.to in Enemy(st))
                                 && (m.moved == Knight ==> PinnedInfo(st, KingSquare(st))[m.from] == AllSquares())
    ensures m.moved == Pawn ==> && m.to in pawns
                                && (|| (!capOnly && PushOf(st, m, PinnedInfo(st, KingSquare(st)), pawns))
                                    || CaptureOf(st, m, PinnedInfo(st, KingSquare(st)), pawns)
                                    || EnPassantOf(st, m, KingSquare(st), PinnedInfo(st, KingSquare(st)), pawns))
  {
    var k := KingSquare(st);
    var pinned := PinnedInfo(st, k);
    if m in OfficerMoves(st, pinned, officers, capOnly) {
      OfficerMovesMember(st, pinned, officers, capOnly, m);
    } else {
      PawnMovesMember(st, k, pinned, pawns, capOnly, m);
    }
  }

  /** Every generated move is the mover's and carries the undo snapshot of the position. */
  lemma LegalMovesStamped(st: State, capOnly: bool, m: Move)
    requires Ready(st) && m in LegalMoves(st, capOnly)
    ensures m.color == st.turn && SnapshotOf(st, m)
  {
    LegalMovesSplit(st, capOnly, m);
    if m in KingMoves(st, capOnly) {
      KingMovesMember(st, capOnly, m);
    } else {
      var info := CheckersOf(st);
      if info.count == 0 {
        OtherListsMember(st, capOnly, m, AllSquares(), AllSquares());
      } else {
        var a := info.attackerSquare as Square;
        OtherListsMember(st, capOnly, m, CheckRemedy(st, a), PawnRemedy(st, a));
      }
    }
    RightsStringRoundTrip(st.rights);
  }

  /** In double check only the king moves, and it does not castle. */
  lemma DoubleCheckKingOnly(st: State, capOnly: bool, m: Move)
    requires Ready(st) && CheckersOf(st).count > 1 && m in LegalMoves(st, capOnly)
    ensures m.moved == King && m.from == KingSquare(st) && !m.isCastle
  {
    var k := KingSquare(st);
    AttackInfoBound(st, k, Opponent(st.turn), 2, true);
    AttackedIs(st, k, Opponent(st.turn));
    KingMovesMember(st, capOnly, m);
  }

  /**
   * In single check every move but the king's lands on the checker or, for
   * a queen, rook or bishop checker, on the line between it and the king;
   * the one other way out is a pawn taking en passant when the checker is a pawn.
   */
  lemma SingleCheckRemedy(st: State, capOnly: bool, m: Move)
    requires Ready(st) && CheckersOf(st).count == 1 && m in LegalMoves(st, capOnly) && m.moved != King
    ensures 0 <= CheckersOf(st).attackerSquare < 64
    ensures var a := CheckersOf(st).attackerSquare as Square;
            || m.to in {a}
            || (Slider(PieceOn(st, a)) && m.to in LineBetween(KingSquare(st), a))
            || (m.moved == Pawn && m.to == st.enPassant && PieceOn(st, a) == Pawn)
  {
    LegalMovesSplit(st, capOnly, m);
    var a := CheckersOf(st).attackerSquare as Square;
    if m in KingMoves(st, capOnly) {
      KingMovesMember(st, capOnly, m);
    } else {
      OtherListsMember(st, capOnly, m, CheckRemedy(st, a), PawnRemedy(st, a));
    }
  }

  /**
   * Moves other than the king's keep to their pin mask: a piece pinned to
   * the king moves only along the line to its pinner, and a pinned knight
   * does not move at all.
   */
  lemma PinnedMovesStayOnLine(st: State, capOnly: bool, m: Move)
    requires Ready(st) && m in LegalMoves(st, capOnly) && m.moved != King
    ensures m.moved != NoPiece && 0 <= m.from < 64 && m.from in PiecesOf(st, st.turn, m.moved)
    ensures m.to in PinnedInfo(st, KingSquare(st))[m.from]
    ensures m.moved == Knight ==> PinnedInfo(st, KingSquare(st))[m.from] == AllSquares()
    ensures !m.isCastle
  {
    LegalMovesSplit(st, capOnly, m);
    if m in KingMoves(st, capOnly) {
      KingMovesMember(st, capOnly, m);
    } else {
      var info := CheckersOf(st);
      if info.count == 0 {
        OtherListsMember(st, capOnly, m, AllSquares(), AllSquares());
      } else {
        var a := info.attackerSquare as Square;
        OtherListsMember(st, capOnly, m, CheckRemedy(st, a), PawnRemedy(st, a));
      }
    }
  }

  /** A king move or a castle comes from the king list. */
  lemma KingMoveFromKingList(st: State, capOnly: bool, m: Move)
    requires Ready(st) && m in LegalMoves(st, capOnly) && (m.moved == King || m.isCastle)
    ensures m in KingMoves(st, capOnly)
  {
    LegalMovesSplit(st, capOnly, m);
    var info := CheckersOf(st);
    if info.count == 0 {
      OtherListsNotKing(st, capOnly, m, AllSquares(), AllSquares());
    } else if info.count == 1 {
      var a := info.attackerSquare as Square;
      OtherListsNotKing(st, capOnly, m, CheckRemedy(st, a), PawnRemedy(st, a));
    }
  }

  /** The non-king lists hold no king move and no castle. */
  lemma OtherListsNotKing(st: State, capOnly: bool, m: Move, officers: Bitboard, pawns: Bitboard)
    requires Ready(st)
    ensures InOtherLists(st, capOnly, m, officers, pawns) ==> m.moved != King && !m.isCastle
  {
    if InOtherLists(st, capOnly, m, officers, pawns) {
      OtherListsMember(st, capOnly, m, officers, pawns);
    }
  }

  /**
   * A king step goes to a neighbouring square without an own piece (an enemy
   * piece under `captures_only`) that no enemy pawn, knight, bishop, rook or
   * queen attacks.
   */
  lemma KingStepsUnattacked(st: State, capOnly: bool, m: Move)
    requires Ready(st) && m in LegalMoves(st, capOnly) && m.moved == King && !m.isCastle
    ensures m.from == KingSquare(st) && 0 <= m.to < 64
    ensures m.to in KingAttacks(KingSquare(st)) && m.to !in Own(st)
    ensures AttackerTotal(st, m.to as Square, Opponent(st.turn)) == 0
    ensures capOnly ==> m.to in Enemy(st)
  {
    KingMoveFromKingList(st, capOnly, m);
    KingMovesMember(st, capOnly, m);
    NoAttacker(st, m.to as Square, Opponent(st.turn));
  }

  /**
   * A castle needs the king unattacked and, on its side, the right, empty
   * squares between king and rook, and unattacked squares for the king to
   * cross and land on; the queenside b-file square must be empty but may be
   * attacked.
   */
  lemma CastlingSound(st: State, capOnly: bool, m: Move)
    requires Ready(st) && m in LegalMoves(st, capOnly) && m.isCastle
    ensures m.moved == King && m.from == KingSquare(st) && m.captured == NoPiece && m.promotion == NoPiece
    ensures CastleNeeds(st, m.to)
  {
    KingMoveFromKingList(st, capOnly, m);
    KingMovesMember(st, capOnly, m);
  }

  /**
   * What a castle to `to` needs: the king not attacked and, on its side, the
   * right, empty squares between king and rook, and unattacked squares for
   * the king to cross and land on (`NoAttacker`: no enemy pawn, knight or
   * slider attacks them).
   */
  predicate CastleNeeds(st: State, to: int)
    requires Ready(st)
  {
    var k := KingSquare(st);
    var c := Opponent(st.turn);
    && !Attacked(st, k, c)
    && (to == k + 2 || to == k - 2)
    && (to == k + 2 ==> && k + 2 < 64 && KingsideRight(st.turn) in st.rights
                        && LineBetween(k + 1, k + 2) * st.all == {}
                        && !Attacked(st, k + 1, c) && !Attacked(st, k + 2, c))
    && (to == k - 2 ==> && k - 3 >= 0 && QueensideRight(st.turn) in st.rights
                        && LineBetween(k - 1, k - 3) * st.all == {}
                        && !Attacked(st, k - 1, c) && !Attacked(st, k - 2, c))
  }

  /** A square the attack test passes has no attacker at all. */
  lemma NoAttacker(st: State, sq: Square, c: Color)
    requires Shaped(st)
    ensures !Attacked(st, sq, c) <==> AttackerTotal(st, sq, c) == 0
  {
    AttackedIs(st, sq, c);
    AttackInfoBound(st, sq, c, 1, false);
  }

  /** With the king unattacked, each castle its test allows is in the list, `captures_only` or not. */
  lemma CastlingComplete(st: State, capOnly: bool)
    requires Ready(st) && !Attacked(st, KingSquare(st), Opponent(st.turn))
    ensures var k := KingSquare(st);
            && (KingsideCastleAllowed(st) ==>
                  NewMove(st, k, k + 2, King, NoPiece, NoPiece, true, false) in LegalMoves(st, capOnly))
            && (QueensideCastleAllowed(st) ==>
                  NewMove(st, k, k - 2, King, NoPiece, NoPiece, true, false) in LegalMoves(st, capOnly))
  {
    var k := KingSquare(st);
    UncheckedWhenUnattacked(st);
    if KingsideCastleAllowed(st) {
      var kingside := NewMove(st, k, k + 2, King, NoPiece, NoPiece, true, false);
      assert kingside in CastleMoves(st);
      CastlesInUncheckedList(st, capOnly, kingside);
    }
    if QueensideCastleAllowed(st) {
      var queenside := NewMove(st, k, k - 2, King, NoPiece, NoPiece, true, false);
      assert queenside in CastleMoves(st);
      CastlesInUncheckedList(st, capOnly, queenside);
    }
  }

  /** An unattacked king has no checkers. */
  lemma UncheckedWhenUnattacked(st: State)
    requires Ready(st) && !Attacked(st, KingSquare(st), Opponent(st.turn))
    ensures CheckersOf(st).count == 0
  {
    AttackedIs(st, KingSquare(st), Opponent(st.turn));
    AttackInfoBound(st, KingSquare(st), Opponent(st.turn), 2, true);
  }

  /** With no checker, the castles close the legal list. */
  lemma CastlesInUncheckedList(st: State, capOnly: bool, m: Move)
    requires Ready(st) && CheckersOf(st).count == 0 && m in CastleMoves(st)
    ensures m in LegalMoves(st, capOnly)
  {
    var k := KingSquare(st);
    var pinned := PinnedInfo(st, k);
    var steps := KingStepMoves(st, KingTargets(st, capOnly));
    var rest := OfficerMoves(st, pinned, AllSquares(), capOnly) + PawnMoves(st, k, pinned, AllSquares(), capOnly);
    assert LegalMoves(st, capOnly) == rest + (steps + CastleMoves(st));
  }

  /** The non-king move `m` of the legal list, read through `OtherListsMember` with the masks it was built with. */
  lemma OtherMove(st: State, capOnly: bool, m: Move) returns (pawns: Bitboard)
    requires Ready(st) && m in LegalMoves(st, capOnly) && m.moved != King
    ensures Officer(m.moved) || m.moved == Pawn
    ensures !m.isCastle
    ensures 0 <= m.from < 64 && 0 <= m.to < 64 && Stamped(st, m)
    ensures Officer(m.moved) ==> Plain(st, m) && m.to !in Own(st) && (capOnly ==> m.to in Enemy(st))
    ensures m.moved == Pawn ==>
              || (!capOnly && PushOf(st, m, PinnedInfo(st, KingSquare(st)), pawns))
              || CaptureOf(st, m, PinnedInfo(st, KingSquare(st)), pawns)
              || EnPassantOf(st, m, KingSquare(st), PinnedInfo(st, KingSquare(st)), pawns)
  {
    LegalMovesSplit(st, capOnly, m);
    KingMoveFromKingListContra(st, capOnly, m);
    if m.isCastle {
      KingMoveFromKingList(st, capOnly, m);
    }
    var info := CheckersOf(st);
    if info.count == 0 {
      pawns := AllSquares();
      OtherListsMember(st, capOnly, m, AllSquares(), AllSquares());
    } else {
      var a := info.attackerSquare as Square;
      pawns := PawnRemedy(st, a);
      OtherListsMember(st, capOnly, m, CheckRemedy(st, a), PawnRemedy(st, a));
    }
  }

  /** The king list holds only king moves. */
  lemma KingMoveFromKingListContra(st: State, capOnly: bool, m: Move)
    requires Ready(st)
    ensures m in KingMoves(st, capOnly) ==> m.moved == King
  {
    if m in KingMoves(st, capOnly) {
      KingMovesMember(st, capOnly, m);
    }
  }

  /**
   * Under `captures_only` every move but a castle or an en-passant capture
   * lands on an enemy piece, and pawns only capture: no pushes, and no
   * push promotions.
   */
  lemma CapturesOnlyTargets(st: State, m: Move)
    requires Ready(st) && m in LegalMoves(st, true)
    ensures !m.isCastle && !m.isEnPassant ==> 0 <= m.to < 64 && m.to in Enemy(st)
    ensures m.moved == Pawn ==> 0 <= m.from < 64 && m.to in PawnAttacks(ColorIndex(st.turn), m.from as Square)
  {
    if m.moved == King || m.isCastle {
      KingMoveFromKingList(st, true, m);
      KingMovesMember(st, true, m);
    } else {
      var _ := OtherMove(st, true, m);
    }
  }

  /** A promotion is a pawn move onto the last rank, to a queen, rook, bishop or knight. */
  lemma PromotionShape(st: State, capOnly: bool, m: Move)
    requires Ready(st) && m in LegalMoves(st, capOnly) && m.promotion != NoPiece
    ensures m.moved == Pawn && Officer(m.promotion) && 0 <= m.to < 64
    ensures PromotionSquare(st.turn, m.to as Square)
  {
    if m.moved == King || m.isCastle {
      KingMoveFromKingList(st, capOnly, m);
      KingMovesMember(st, capOnly, m);
    } else {
      var _ := OtherMove(st, capOnly, m);
    }
  }

  /** The double step starts on the start rank and crosses and lands on empty squares. */
  lemma DoublePushFromStart(st: State, capOnly: bool, m: Move)
    requires Ready(st) && m in LegalMoves(st, capOnly) && m.moved == Pawn
    requires m.to == m.from + 2 * PushStep(st.turn)
    ensures !capOnly && !m.isEnPassant && m.promotion == NoPiece
    ensures 0 <= m.from < 64 && Rank(m.from) == StartRank(st.turn)
    ensures m.from + PushStep(st.turn) !in st.all && m.to !in st.all
  {
    var pawns := OtherMove(st, capOnly, m);
    if m.to in PawnAttacks(ColorIndex(st.turn), m.from as Square) {
      PawnAttackForward(st.turn, m.from as Square, m.to as Square);
    }
  }

  /** A pawn attacks one rank forwards, never two. */
  lemma PawnAttackForward(c: Color, from: Square, to: Square)
    requires to in PawnAttacks(ColorIndex(c), from)
    ensures to - from == PushStep(c) - 1 || to - from == PushStep(c) + 1
  {
  }

  /**
   * En passant takes the pawn behind the en-passant square, and is refused
   * when the king shares the capturing pawn's rank and the first piece along
   * it, with both pawns gone, is an enemy rook or queen.
   */
  lemma EnPassantRankPin(st: State, capOnly: bool, m: Move)
    requires Ready(st) && m in LegalMoves(st, capOnly) && m.isEnPassant
    ensures m.moved == Pawn && m.captured == Pawn && 0 <= m.from < 64 && m.to == st.enPassant
    ensures 0 <= st.enPassant < 64 && st.enPassant in PawnAttacks(ColorIndex(st.turn), m.from as Square)
    ensures Rank(KingSquare(st)) == Rank(m.from) ==> !RankExposed(st, KingSquare(st), m.from as Square)
  {
    if m.moved == King || m.isCastle {
      KingMoveFromKingList(st, capOnly, m);
      KingMovesMember(st, capOnly, m);
    } else {
      var _ := OtherMove(st, capOnly, m);
    }
  }

  // ---------------------------------------------------------------
  // Promotions come in fours
  // ---------------------------------------------------------------

  /** Every promotion in `ms` comes with the same move promoting to each of the four officers. */
  predicate PromotionsFanned(ms: seq<Move>)
  {
    forall i, q | 0 <= i < |ms| && ms[i].promotion != NoPiece && Officer(q) :: ms[i].(promotion := q) in ms
  }

  lemma FannedConcat(a: seq<Move>, b: seq<Move>)
    requires PromotionsFanned(a) && PromotionsFanned(b)
    ensures PromotionsFanned(a + b)
  {
    var ab := a + b;
    forall i, q | 0 <= i < |ab| && ab[i].promotion != NoPiece && Officer(q)
      ensures ab[i].(promotion := q) in ab
    {
      if i < |a| {
        assert ab[i] == a[i];
      } else {
        assert ab[i] == b[i - |a|];
      }
    }
  }

  lemma FannedWithoutPromotions(ms: seq<Move>)
    requires forall i | 0 <= i < |ms| :: ms[i].promotion == NoPiece
    ensures PromotionsFanned(ms)
  {
  }

  lemma PromotionsOfOneMoveFanned(st: State, from: Square, to: Square, captured: PieceType)
    ensures PromotionsFanned(Promotions(st, from, to, captured))
  {
    var ps := Promotions(st, from, to, captured);
    forall i, q | 0 <= i < |ps| && ps[i].promotion != NoPiece && Officer(q)
      ensures ps[i].(promotion := q) in ps
    {
      var sibling := NewMove(st, from, to, Pawn, captured, q, false, false);
      assert ps[i].(promotion := q) == sibling;
      assert sibling == ps[if q == Queen then 0 else if q == Rook then 1 else if q == Bishop then 2 else 3];
    }
  }

  lemma OfficerMovesFanned(st: State, pinned: seq<Bitboard>, remedy: Bitboard, capOnly: bool)
    requires Shaped(st) && MapReadable(st) && |pinned| == 64
    ensures PromotionsFanned(OfficerMoves(st, pinned, remedy, capOnly))
  {
    var ms := OfficerMoves(st, pinned, remedy, capOnly);
    forall i | 0 <= i < |ms| ensures ms[i].promotion == NoPiece {
      OfficerMovesMember(st, pinned, remedy, capOnly, ms[i]);
    }
    FannedWithoutPromotions(ms);
  }

  lemma KingMovesFanned(st: State, capOnly: bool)
    requires Ready(st)
    ensures PromotionsFanned(KingMoves(st, capOnly))
  {
    var ms := KingMoves(st, capOnly);
    forall i | 0 <= i < |ms| ensures ms[i].promotion == NoPiece {
      KingMovesMember(st, capOnly, ms[i]);
    }
    FannedWithoutPromotions(ms);
  }

  lemma PushMovesFanned(st: State, from: Square, pinned: seq<Bitboard>, remedy: Bitboard)
    requires Shaped(st) && |pinned| == 64
    ensures PromotionsFanned(PushMoves(st, from, pinned, remedy))
  {
    var step := PushStep(st.turn);
    var to := from + step;
    if 0 <= to < 64 && to !in st.all {
      var single := if to in pinned[from] * remedy then
                      (if Rank(from) == PromotionRank(st.turn) then Promotions(st, from, to, NoPiece)
                       else [NewMove(st, from, to, Pawn, NoPiece, NoPiece, false, false)])
                    else [];
      var double := if Rank(from) == StartRank(st.turn) && from + 2 * step !in st.all
                       && from + 2 * step in pinned[from] * remedy
                    then [NewMove(st, from, from + 2 * step, Pawn, NoPiece, NoPiece, false, false)]
                    else [];
      assert PushMoves(st, from, pinned, remedy) == single + double;
      if to in pinned[from] * remedy && Rank(from) == PromotionRank(st.turn) {
        PromotionsOfOneMoveFanned(st, from, to, NoPiece);
      } else {
        FannedWithoutPromotions(single);
      }
      FannedWithoutPromotions(double);
      FannedConcat(single, double);
    }
  }

  lemma {:induction false} PushesOverFanned(st: State, froms: Bitboard, pinned: seq<Bitboard>, remedy: Bitboard)
    requires Shaped(st) && |pinned| == 64
    ensures PromotionsFanned(PushesOver(st, froms, pinned, remedy))
    decreases |froms|
  {
    if froms != {} {
      var from := Lsb(froms) as Square;
      PushMovesFanned(st, from, pinned, remedy);
      PushesOverFanned(st, froms - {from}, pinned, remedy);
      FannedConcat(PushMoves(st, from, pinned, remedy), PushesOver(st, froms - {from}, pinned, remedy));
    }
  }

  lemma {:induction false} CaptureMovesToFanned(st: State, from: Square, targets: Bitboard)
    requires Shaped(st) && MapReadable(st)
    ensures PromotionsFanned(CaptureMovesTo(st, from, targets))
    decreases |targets|
  {
    if targets != {} {
      var to := Lsb(targets) as Square;
      var head := if PromotionSquare(st.turn, to) then Promotions(st, from, to, PieceOn(st, to))
                  else [NewMove(st, from, to, Pawn, PieceOn(st, to), NoPiece, false, false)];
      if PromotionSquare(st.turn, to) {
        PromotionsOfOneMoveFanned(st, from, to, PieceOn(st, to));
      } else {
        FannedWithoutPromotions(head);
      }
      CaptureMovesToFanned(st, from, targets - {to});
      FannedConcat(head, CaptureMovesTo(st, from, targets - {to}));
    }
  }

  lemma {:induction false} CapturesOverFanned(st: State, k: Square, froms: Bitboard, pinned: seq<Bitboard>,
                                              remedy: Bitboard)
    requires Shaped(st) && MapReadable(st) && |pinned| == 64 && -1 <= st.enPassant < 64
    ensures PromotionsFanned(CapturesOver(st, k, froms, pinned, remedy))
    decreases |froms|
  {
    if froms != {} {
      var from := Lsb(froms) as Square;
      var caps := CaptureMovesTo(st, from, CaptureTargets(st, from, pinned, remedy));
      var ep := EnPassantMoves(st, k, from, pinned, remedy);
      var rest := CapturesOver(st, k, froms - {from}, pinned, remedy);
      CaptureMovesToFanned(st, from, CaptureTargets(st, from, pinned, remedy));
      FannedWithoutPromotions(ep);
      CapturesOverFanned(st, k, froms - {from}, pinned, remedy);
      FannedConcat(caps, ep);
      FannedConcat(caps + ep, rest);
    }
  }

  lemma PawnMovesFanned(st: State, k: Square, pinned: seq<Bitboard>, remedy: Bitboard, capOnly: bool)
    requires Shaped(st) && MapReadable(st) && |pinned| == 64 && -1 <= st.enPassant < 64
    ensures PromotionsFanned(PawnMoves(st, k, pinned, remedy, capOnly))
  {
    var pawns := PiecesOf(st, st.turn, Pawn);
    var pushes := if capOnly then [] else PushesOver(st, pawns, pinned, remedy);
    if !capOnly {
      PushesOverFanned(st, pawns, pinned, remedy);
    }
    CapturesOverFanned(st, k, pawns, pinned, remedy);
    FannedConcat(pushes, CapturesOver(st, k, pawns, pinned, remedy));
  }

  /** A promotion to one officer in the legal list comes with the same move promoting to each of the others. */
  lemma PromotionFanOut(st: State, capOnly: bool, m: Move, q: PieceType)
    requires Ready(st) && m in LegalMoves(st, capOnly) && m.promotion != NoPiece && Officer(q)
    ensures m.(promotion := q) in LegalMoves(st, capOnly)
  {
    var k := KingSquare(st);
    var pinned := PinnedInfo(st, k);
    var info := CheckersOf(st);
    AttackerSquareOnBoard(st, k, Opponent(st.turn), 2);
    KingMovesFanned(st, capOnly);
    if info.count == 1 {
      var a := info.attackerSquare as Square;
      OfficerMovesFanned(st, pinned, CheckRemedy(st, a), capOnly);
      PawnMovesFanned(st, k, pinned, PawnRemedy(st, a), capOnly);
      FannedConcat(KingMoves(st, capOnly), OfficerMoves(st, pinned, CheckRemedy(st, a), capOnly));
      FannedConcat(KingMoves(st, capOnly) + OfficerMoves(st, pinned, CheckRemedy(st, a), capOnly),
                   PawnMoves(st, k, pinned, PawnRemedy(st, a), capOnly));
    } else if info.count <= 0 {
      OfficerMovesFanned(st, pinned, AllSquares(), capOnly);
      PawnMovesFanned(st, k, pinned, AllSquares(), capOnly);
      FannedConcat(OfficerMoves(st, pinned, AllSquares(), capOnly), PawnMoves(st, k, pinned, AllSquares(), capOnly));
      FannedConcat(OfficerMoves(st, pinned, AllSquares(), capOnly) + PawnMoves(st, k, pinned, AllSquares(), capOnly),
                   KingMoves(st, capOnly));
    }
    var ms := LegalMoves(st, capOnly);
    var i :| 0 <= i < |ms| && ms[i] == m;
  }

  // ---------------------------------------------------------------
  // Pin masks
  // ---------------------------------------------------------------

  /**
   * Ray `d` of the king on `k` pins the piece on `sq` to the pinner on `p`:
   * `sq` is the first occupied square of the ray and holds a piece of the
   * mover's, `p` is the next occupied square and holds an enemy slider that
   * moves along such a ray.
   */
  predicate PinnedBy(st: State, k: Square, d: int, sq: Square, p: int)
    requires Shaped(st) && 0 <= d < 8
  {
    && sq == FirstBlocker(RayMask(d, k), st.all, d < 4) && sq in Own(st)
    && p == SecondBlocker(RayMask(d, k), st.all, d < 4, sq) && p in Pinners(st, d)
  }

  /** A pin found on ray `d`: the first blocker and its mask, the line to the pinner without the king. */
  lemma PinOnRayShape(st: State, k: Square, d: int)
    requires Shaped(st) && 0 <= d < 8
    ensures PinOnRay(st, k, d).Some? <==> exists sq: Square, p :: PinnedBy(st, k, d, sq, p)
    ensures PinOnRay(st, k, d).Some? ==>
              var (sq, mask) := PinOnRay(st, k, d).value;
              exists p: Square :: PinnedBy(st, k, d, sq, p) && p in RayMask(d, k) && mask == LineBetween(k, p) - {k}
  {
    var ray := RayMask(d, k);
    var first := FirstBlocker(ray, st.all, d < 4);
    if first != -1 {
      var second := SecondBlocker(ray, st.all, d < 4, first);
      SecondBlockerIsNext(ray, st.all, d < 4, first);
      if first in Own(st) && second != -1 && second in Pinners(st, d) {
        var p := second as Square;
        assert PinnedBy(st, k, d, first as Square, p);
        RayAligned(d, k, p);
        LineBetweenShape(k, p);
        assert Xor(LineBetween(k, p), {k}) == LineBetween(k, p) - {k};
      }
    }
  }

  /** Ray `d` pins the piece on `sq`. */
  predicate PinsSquare(st: State, k: Square, d: int, sq: Square)
    requires Shaped(st) && 0 <= d < 8
  {
    PinOnRay(st, k, d).Some? && PinOnRay(st, k, d).value.0 == sq
  }

  /** A pin mask leaves out the king square, so it is never the all-squares mask. */
  lemma PinMaskMissesKing(st: State, k: Square, d: int)
    requires Shaped(st) && 0 <= d < 8 && PinOnRay(st, k, d).Some?
    ensures k !in PinOnRay(st, k, d).value.1 && PinOnRay(st, k, d).value.1 != AllSquares()
  {
    var ray := RayMask(d, k);
    var first := FirstBlocker(ray, st.all, d < 4);
    var second := SecondBlocker(ray, st.all, d < 4, first);
    SecondBlockerIsNext(ray, st.all, d < 4, first);
    RayAligned(d, k, second as Square);
    LineBetweenShape(k, second as Square);
    assert k in AllSquares();
  }

  /** No ray below `n` pins the piece on `sq`. */
  predicate UnpinnedBelow(st: State, k: Square, n: int, sq: Square)
    requires Shaped(st) && 0 <= n <= 8
  {
    n == 0 || (UnpinnedBelow(st, k, n - 1, sq) && !PinsSquare(st, k, n - 1, sq))
  }

  lemma {:induction false} PinsUpToShape(st: State, k: Square, n: int, sq: Square)
    requires Shaped(st) && 0 <= n <= 8
    ensures PinsUpTo(st, k, n)[sq] == AllSquares() <==> UnpinnedBelow(st, k, n, sq)
    ensures PinsUpTo(st, k, n)[sq] != AllSquares() ==>
              exists d | 0 <= d < n :: PinOnRay(st, k, d) == Some((sq, PinsUpTo(st, k, n)[sq]))
  {
    if n == 0 {
      assert PinsUpTo(st, k, 0)[sq] == AllSquares();
    } else {
      PinsUpToShape(st, k, n - 1, sq);
      PinsUpToStep(st, k, n, sq);
    }
  }

  /** One more ray changes the mask of `sq` only when it pins the piece there. */
  lemma PinsUpToStep(st: State, k: Square, n: int, sq: Square)
    requires Shaped(st) && 0 < n <= 8
    ensures PinsSquare(st, k, n - 1, sq) ==>
              PinOnRay(st, k, n - 1) == Some((sq, PinsUpTo(st, k, n)[sq])) && PinsUpTo(st, k, n)[sq] != AllSquares()
    ensures !PinsSquare(st, k, n - 1, sq) ==> PinsUpTo(st, k, n)[sq] == PinsUpTo(st, k, n - 1)[sq]
  {
    if PinsSquare(st, k, n - 1, sq) {
      PinMaskMissesKing(st, k, n - 1);
    }
  }

  /** `UnpinnedBelow` for all eight rays: no ray pins the piece. */
  lemma UnpinnedBelowAll(st: State, k: Square, sq: Square)
    requires Shaped(st)
    ensures UnpinnedBelow(st, k, 8, sq) <==> forall d | 0 <= d < 8 :: !PinsSquare(st, k, d, sq)
  {
    assert UnpinnedBelow(st, k, 1, sq) <==> !PinsSquare(st, k, 0, sq);
    assert UnpinnedBelow(st, k, 2, sq) <==> UnpinnedBelow(st, k, 1, sq) && !PinsSquare(st, k, 1, sq);
    assert UnpinnedBelow(st, k, 3, sq) <==> UnpinnedBelow(st, k, 2, sq) && !PinsSquare(st, k, 2, sq);
    assert UnpinnedBelow(st, k, 4, sq) <==> UnpinnedBelow(st, k, 3, sq) && !PinsSquare(st, k, 3, sq);
    assert UnpinnedBelow(st, k, 5, sq) <==> UnpinnedBelow(st, k, 4, sq) && !PinsSquare(st, k, 4, sq);
    assert UnpinnedBelow(st, k, 6, sq) <==> UnpinnedBelow(st, k, 5, sq) && !PinsSquare(st, k, 5, sq);
    assert UnpinnedBelow(st, k, 7, sq) <==> UnpinnedBelow(st, k, 6, sq) && !PinsSquare(st, k, 6, sq);
    assert UnpinnedBelow(st, k, 8, sq) <==> UnpinnedBelow(st, k, 7, sq) && !PinsSquare(st, k, 7, sq);
  }

  /**
   * `pinned_info[sq]` is all squares unless a ray of the king pins the piece
   * on `sq`; then it is the line from the king to the pinner, the king
   * square left out.
   */
  lemma PinMaskShape(st: State, k: Square, sq: Square)
    requires Shaped(st)
    ensures PinnedInfo(st, k)[sq] == AllSquares() <==> forall d, p | 0 <= d < 8 :: !PinnedBy(st, k, d, sq, p)
    ensures PinnedInfo(st, k)[sq] != AllSquares() ==>
              exists d, p: Square :: 0 <= d < 8 && PinnedBy(st, k, d, sq, p) && p in RayMask(d, k)
                                     && PinnedInfo(st, k)[sq] == LineBetween(k, p) - {k}
  {
    PinsUpToShape(st, k, 8, sq);
    UnpinnedBelowAll(st, k, sq);
    forall d, p | 0 <= d < 8 && PinnedBy(st, k, d, sq, p)
      ensures PinsSquare(st, k, d, sq)
    {
      PinnedByPins(st, k, d, sq, p);
    }
    forall d | 0 <= d < 8 && PinsSquare(st, k, d, sq)
      ensures exists p :: PinnedBy(st, k, d, sq, p)
    {
      PinOnRayShape(st, k, d);
    }
    if PinnedInfo(st, k)[sq] != AllSquares() {
      var d :| 0 <= d < 8 && PinOnRay(st, k, d) == Some((sq, PinnedInfo(st, k)[sq]));
      PinOnRayShape(st, k, d);
    }
  }

  /** A piece that ray `d` pins is the one `PinOnRay` records. */
  lemma PinnedByPins(st: State, k: Square, d: int, sq: Square, p: int)
    requires Shaped(st) && 0 <= d < 8 && PinnedBy(st, k, d, sq, p)
    ensures PinsSquare(st, k, d, sq)
  {
  }

  // ---------------------------------------------------------------
  // Slider rays
  // ---------------------------------------------------------------

  /** No occupied square of ray `d` lies strictly between `sq` and `t`. */
  predicate ClearUpTo(d: int, sq: Square, occ: Bitboard, t: Square)
    requires 0 <= d < 8
  {
    forall b | b in RayMask(d, sq) * occ :: if d < 4 then t <= b else b <= t
  }

  /** A slider's ray reaches each square of the ray up to and including the first occupied one. */
  lemma RayAttacksShape(d: int, sq: Square, occ: Bitboard, t: Square)
    requires 0 <= d < 8
    ensures t in RayAttacks(d, sq, occ) <==> t in RayMask(d, sq) && ClearUpTo(d, sq, occ, t)
  {
    var blockers := RayMask(d, sq) * occ;
    if blockers != {} {
      var first := (if d < 4 then Lsb(blockers) else Msb(blockers)) as Square;
      RayMaskBeyond(d, sq, first);
    }
  }
}
