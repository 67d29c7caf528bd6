// The rules the search of src/engine.cpp applies around its recursion: the
// time budget, the pruning and reduction gates, the terminal score, the
// staged move ordering score, and the killer-move and history tables of a
// search thread (`ThreadLocalData` in include/engine.h).
module Search {
  import opened Bits
  import opened Pieces
  import opened Moves

  // ---------------------------------------------------------------
  // SearchLimits and decide_time_control
  // ---------------------------------------------------------------

  /** `SearchLimits`. */
  datatype SearchLimits = SearchLimits(depth: int, movetime: int, wtime: int, btime: int,
                                       winc: int, binc: int, nodes: int, mate: int, infinite: bool)

  /** A default-constructed `SearchLimits`. */
  function DefaultLimits(): (l: SearchLimits)
    ensures l.depth == -1 && l.movetime == -1 && l.wtime == -1 && l.btime == -1
    ensures l.winc == 0 && l.binc == 0 && l.nodes == -1 && l.mate == -1 && !l.infinite
  {
    SearchLimits(-1, -1, -1, -1, 0, 0, -1, -1, false)
  }

  /** `TimeControlDecision`. */
  datatype TimeControl = TimeControl(timeMs: int, maxDepth: int)

  /**
   * The constants `INFINITE_TIME_MS`, `INFINITE_DEPTH` and `DEFAULT_TIME_MS`,
   * which are not part of this model's sources; they are given by the caller.
   */
  datatype TimeDefaults = TimeDefaults(infiniteTimeMs: int, infiniteDepth: int, defaultTimeMs: int)

  /** The clock budget: a fortieth of the time left plus the increment, capped at half the time left. */
  function ClockBudget(timeLeft: int, inc: int): (t: int)
    ensures t <= TruncDiv(timeLeft, 2)
    ensures t == TruncDiv(timeLeft, 2) || t == TruncDiv(timeLeft, 40) + inc
  {
    var t := TruncDiv(timeLeft, 40) + inc;
    if t > TruncDiv(timeLeft, 2) then TruncDiv(timeLeft, 2) else t
  }

  /**
   * `decide_time_control`: a positive `depth` limits the depth; a positive
   * `movetime` wins; else a positive clock of either side gives the clock
   * budget of the side to move; else a depth limit or `infinite` searches
   * without a time limit; else the default time.
   */
  function DecideTimeControl(turn: Color, limits: SearchLimits, k: TimeDefaults): (tc: TimeControl)
    ensures tc.maxDepth == if limits.depth > 0 then limits.depth else k.infiniteDepth
    ensures limits.movetime > 0 ==> tc.timeMs == limits.movetime
    ensures limits.movetime <= 0 && (limits.wtime > 0 || limits.btime > 0) ==>
      tc.timeMs == if turn == White then ClockBudget(limits.wtime, limits.winc) else ClockBudget(limits.btime, limits.binc)
    ensures limits.movetime <= 0 && limits.wtime <= 0 && limits.btime <= 0 ==>
      tc.timeMs == if limits.depth > 0 || limits.infinite then k.infiniteTimeMs else k.defaultTimeMs
  {
    var maxDepth := if limits.depth > 0 then limits.depth else k.infiniteDepth;
    if limits.movetime > 0 then TimeControl(limits.movetime, maxDepth)
    else if limits.wtime > 0 || limits.btime > 0 then
      var timeLeft := if turn == White then limits.wtime else limits.btime;
      var inc := if turn == White then limits.winc else limits.binc;
      TimeControl(ClockBudget(timeLeft, inc), maxDepth)
    else if limits.depth > 0 then TimeControl(k.infiniteTimeMs, limits.depth)
    else if limits.infinite then TimeControl(k.infiniteTimeMs, maxDepth)
    else TimeControl(k.defaultTimeMs, maxDepth)
  }

  /**
   * With time left and a non-negative increment, the clock budget is
   * between zero and half the time left, and at least the increment
   * when the increment is under half the time left.
   */
  lemma ClockBudgetBounds(timeLeft: int, inc: int)
    requires timeLeft >= 0 && inc >= 0
    ensures 0 <= ClockBudget(timeLeft, inc) <= timeLeft / 2
    ensures inc <= timeLeft / 2 ==> inc <= ClockBudget(timeLeft, inc)
  {
  }

  /** Default limits give the default time and no depth limit. */
  lemma DefaultLimitsTimeControl(turn: Color, k: TimeDefaults)
    ensures DecideTimeControl(turn, DefaultLimits(), k) == TimeControl(k.defaultTimeMs, k.infiniteDepth)
  {
  }

  /** The budget of the side to move does not depend on the other side's increment. */
  lemma TimeControlIgnoresOtherIncrement(limits: SearchLimits, k: TimeDefaults, winc: int, binc: int)
    ensures DecideTimeControl(White, limits, k) == DecideTimeControl(White, limits.(binc := binc), k)
    ensures DecideTimeControl(Black, limits, k) == DecideTimeControl(Black, limits.(winc := winc), k)
  {
  }

  // ---------------------------------------------------------------
  // Pruning gates
  // ---------------------------------------------------------------

  /** `FUTILITY_MARGIN_D1` and `FUTILITY_MARGIN_D2`. */
  const FUTILITY_MARGIN_D1: int := 200
  const FUTILITY_MARGIN_D2: int := 400

  /** `MATE_SCORE`, `MAX_PLY` and `MATE_THRESHOLD`. */
  const MATE_SCORE: int := 10000000
  const MAX_PLY: int := 128
  const MATE_THRESHOLD: int := MATE_SCORE - MAX_PLY

  /** Neither a capture nor a promotion. */
  predicate IsQuiet(m: Move)
  {
    m.captured == NoPiece && m.promotion == NoPiece
  }

  /** `should_futility_prune`. */
  function ShouldFutilityPrune(depth: int, eval: int, alpha: int, inCheck: bool, move: Move): (prune: bool)
    ensures prune ==> !inCheck && IsQuiet(move) && 1 <= depth <= 2 && eval + 200 <= alpha
  {
    if depth > 2 then false
    else if inCheck || !IsQuiet(move) then false
    else if depth == 1 && eval + FUTILITY_MARGIN_D1 <= alpha then true
    else depth == 2 && eval + FUTILITY_MARGIN_D2 <= alpha
  }

  /**
   * Futility pruning applies only to quiet moves out of check at depth 1 or
   * 2, where the static evaluation plus 200 (depth 1) or 400 (depth 2) does
   * not reach alpha.
   */
  lemma FutilityPruneIff(depth: int, eval: int, alpha: int, inCheck: bool, move: Move)
    ensures ShouldFutilityPrune(depth, eval, alpha, inCheck, move) <==>
      !inCheck && IsQuiet(move)
      && ((depth == 1 && eval + 200 <= alpha) || (depth == 2 && eval + 400 <= alpha))
  {
  }

  /** Raising alpha or lowering the evaluation never turns pruning off. */
  lemma FutilityMonotone(depth: int, eval: int, alpha: int, inCheck: bool, move: Move, eval2: int, alpha2: int)
    requires eval2 <= eval && alpha2 >= alpha
    ensures ShouldFutilityPrune(depth, eval, alpha, inCheck, move) ==> ShouldFutilityPrune(depth, eval2, alpha2, inCheck, move)
  {
  }

  /** Either killer slot of the ply holds the move, by `operator==`. */
  predicate IsKillerOf(move: Move, killer0: Move, killer1: Move)
  {
    SameMove(move, killer0) || SameMove(move, killer1)
  }

  /**
   * `late_move_reduction`, with the two killer slots of `ply`: a killer only
   * counts as special past the root.
   */
  function LateMoveReduction(depth: int, movesSearched: int, move: Move, ply: int, killer0: Move, killer1: Move): (r: int)
    ensures r == 0 || r == 2
  {
    var isCapture := move.captured != NoPiece;
    var isPromotion := move.promotion != NoPiece;
    var isKiller := ply > 0 && IsKillerOf(move, killer0, killer1);
    if !(isCapture || isPromotion || isKiller) && depth >= 3 && movesSearched > 3 then 2 else 0
  }

  /**
   * The reduction is 2 exactly for a quiet move, not a killer (past the
   * root), searched after the first three at depth 3 or more.
   */
  lemma LateMoveReductionIff(depth: int, movesSearched: int, move: Move, ply: int, killer0: Move, killer1: Move)
    ensures LateMoveReduction(depth, movesSearched, move, ply, killer0, killer1) == 2 <==>
      IsQuiet(move) && !(ply > 0 && IsKillerOf(move, killer0, killer1)) && depth >= 3 && movesSearched > 3
  {
  }

  /** Searching deeper or later never removes a reduction. */
  lemma LateMoveReductionMonotone(depth: int, movesSearched: int, move: Move, ply: int, killer0: Move, killer1: Move,
                                  depth2: int, movesSearched2: int)
    requires depth2 >= depth && movesSearched2 >= movesSearched
    ensures LateMoveReduction(depth, movesSearched, move, ply, killer0, killer1)
         <= LateMoveReduction(depth2, movesSearched2, move, ply, killer0, killer1)
  {
  }

  /**
   * The gate at the top of `try_null_move_pruning`: the null-move search is
   * tried only with no mate score in the window, at depth 3 or more, out of
   * check and with a piece other than pawns and king
   * (`has_enough_material_for_nmp`).
   */
  function NullMoveAllowed(inCheck: bool, depth: int, alpha: int, beta: int, enoughMaterial: bool): (allowed: bool)
    ensures allowed ==> !inCheck && enoughMaterial && depth >= 3 && -9999872 < beta && alpha < 9999872
  {
    var mateScorePossible := alpha >= MATE_THRESHOLD || beta <= -MATE_THRESHOLD;
    !(mateScorePossible || depth < 3 || inCheck || !enoughMaterial)
  }

  /** The gate opens exactly for the conditions above. */
  lemma NullMoveAllowedIff(inCheck: bool, depth: int, alpha: int, beta: int, enoughMaterial: bool)
    ensures NullMoveAllowed(inCheck, depth, alpha, beta, enoughMaterial) <==>
      -9999872 < beta && alpha < 9999872 && depth >= 3 && !inCheck && enoughMaterial
  {
  }

  /** `SearchResult`. */
  datatype SearchResult = SearchResult(score: int, bestMove: Move, isTempered: bool)

  /** `terminal_eval`: mated when in check, else a stalemate draw; no move. */
  function TerminalEval(inCheck: bool): (r: SearchResult)
    ensures r.bestMove == NullMove() && !r.isTempered
    ensures inCheck <==> r.score == -MATE_SCORE
    ensures !inCheck <==> r.score == 0
  {
    if inCheck then SearchResult(-MATE_SCORE, NullMove(), false) else SearchResult(0, NullMove(), false)
  }

  // ---------------------------------------------------------------
  // Move-ordering score
  // ---------------------------------------------------------------

  /**
   * The victim value of a promotion as the promotion branch of `score_move`
   * should read it: 0 when nothing is captured.
   */
  function VictimValue(p: PieceType): (v: int)
    ensures p == NoPiece <==> v == 0
    ensures p != NoPiece ==> v == WhiteValue(p)
  {
    if p == NoPiece then 0 else WhiteValue(p)
  }

  /** The table indices of the quiet stage, the capture stage and the promotion stage are in range. */
  predicate ScoreMoveIndices(move: Move)
  {
    (move.captured != NoPiece ==> move.moved != NoPiece)
    && (move.captured == NoPiece && move.promotion == NoPiece ==> move.moved != NoPiece && 0 <= move.to < 64)
  }

  /**
   * The stage of `score_move`: 6 for the TT move (unless the TT entry was
   * from depth 0), 5 for a promotion, 4 or 1 for a capture whose static
   * exchange is or is not losing, 3 for a killer, 2 for any other move.
   */
  function MoveStage(move: Move, ttMove: Move, depth0: bool, isKiller: bool, see: int): (s: int)
    ensures 1 <= s <= 6
  {
    if SameMove(move, ttMove) && !depth0 then 6
    else if move.promotion != NoPiece then 5
    else if move.captured != NoPiece then (if see >= 0 then 4 else 1)
    else if isKiller then 3
    else 2
  }

  /**
   * The sub-score within the stage: promotion value minus victim value,
   * the exchange score plus a victim-minus-attacker tiebreak for good
   * captures, the exchange score for bad ones, the history value plus the
   * pawn-push bonus for quiet moves.
   */
  function MoveSub(move: Move, ttMove: Move, depth0: bool, isKiller: bool, see: int, history: int, pawnPush: int): int
    requires ScoreMoveIndices(move)
  {
    if SameMove(move, ttMove) && !depth0 then 0
    else if move.promotion != NoPiece then WhiteValue(move.promotion) - VictimValue(move.captured)
    else if move.captured != NoPiece then
      (if see >= 0 then see + TruncDiv(WhiteValue(move.captured) - WhiteValue(move.moved), 16) else see)
    else if isKiller then 0
    else history + pawnPush
  }

  /**
   * `score_move(move, ply, tt_move, depth_0, board)`: `stage * 100000 + sub`.
   * `isKiller` is the killer test of the ply, `see` is `see_move(board,
   * move)`, `history` the history cell of the move and `pawnPush`
   * `relevant_pawn_push(board, move)`; each is used only in its stage.
   */
  function ScoreMove(move: Move, ttMove: Move, depth0: bool, isKiller: bool, see: int, history: int, pawnPush: int): (score: int)
    requires ScoreMoveIndices(move)
    ensures SameMove(move, ttMove) && !depth0 ==> score == 600000
    ensures !(SameMove(move, ttMove) && !depth0) && move.promotion == NoPiece && move.captured == NoPiece && !isKiller ==>
              score == 200000 + history + pawnPush
  {
    MoveStage(move, ttMove, depth0, isKiller, see) * 100000 + MoveSub(move, ttMove, depth0, isKiller, see, history, pawnPush)
  }

  /**
   * Moves are ordered by stage first: when both sub-scores lie within
   * (-50000, 50000), a move of a higher stage scores higher.
   */
  lemma ScoreMoveStageOrder(a: Move, b: Move, ttMove: Move, depth0: bool,
                            killerA: bool, seeA: int, historyA: int, pushA: int,
                            killerB: bool, seeB: int, historyB: int, pushB: int)
    requires ScoreMoveIndices(a) && ScoreMoveIndices(b)
    requires -50000 < MoveSub(a, ttMove, depth0, killerA, seeA, historyA, pushA) < 50000
    requires -50000 < MoveSub(b, ttMove, depth0, killerB, seeB, historyB, pushB) < 50000
    requires MoveStage(a, ttMove, depth0, killerA, seeA) > MoveStage(b, ttMove, depth0, killerB, seeB)
    ensures ScoreMove(a, ttMove, depth0, killerA, seeA, historyA, pushA) > ScoreMove(b, ttMove, depth0, killerB, seeB, historyB, pushB)
  {
    var sa, sb := MoveStage(a, ttMove, depth0, killerA, seeA), MoveStage(b, ttMove, depth0, killerB, seeB);
    assert sa * 100000 >= sb * 100000 + 100000;
  }

  /**
   * The TT move scores exactly 600000, above every move whose sub-score is
   * under 100000 (unless the TT entry came from depth 0).
   */
  lemma ScoreMoveTTFirst(move: Move, ttMove: Move, killer: bool, see: int, history: int, pawnPush: int,
                         other: Move, killerO: bool, seeO: int, historyO: int, pushO: int)
    requires ScoreMoveIndices(move) && ScoreMoveIndices(other) && SameMove(move, ttMove) && !SameMove(other, ttMove)
    requires MoveSub(other, ttMove, false, killerO, seeO, historyO, pushO) < 100000
    ensures ScoreMove(move, ttMove, false, killer, see, history, pawnPush) == 600000
    ensures ScoreMove(other, ttMove, false, killerO, seeO, historyO, pushO) < 600000
  {
  }

  /**
   * The promotion branch of `score_move` as written: it reads
   * `PIECE_VALUES[WHITE][to_int(piece_captured)]`, whose index is only in
   * the six-wide row when something is captured.
   */
  predicate PromotionReadInRow(move: Move, ttMove: Move, depth0: bool)
  {
    !(SameMove(move, ttMove) && !depth0) && move.promotion != NoPiece ==> PieceIndex(move.captured) < 6
  }

  /** A quiet promotion, which pawn pushes to the last rank generate, reads past the row. */
  lemma QuietPromotionReadsPastRow()
    ensures var m := MakeMove(52, 60, Pawn, White, NoPiece, "", -1, Queen, false, false);
      ScoreMoveIndices(m) && !PromotionReadInRow(m, NullMove(), false)
  {
    var m := MakeMove(52, 60, Pawn, White, NoPiece, "", -1, Queen, false, false);
    assert !SameMove(m, NullMove());
  }

  /** The corrected promotion score counts an empty victim as 0, so a quiet promotion ranks by its piece. */
  lemma QuietPromotionScore(move: Move, ttMove: Move, depth0: bool, killer: bool, see: int, history: int, pawnPush: int)
    requires ScoreMoveIndices(move) && move.promotion != NoPiece && move.captured == NoPiece
    requires !(SameMove(move, ttMove) && !depth0)
    ensures ScoreMove(move, ttMove, depth0, killer, see, history, pawnPush) == 500000 + WhiteValue(move.promotion)
  {
  }

  // ---------------------------------------------------------------
  // Move recovery, repetition, pawn pushes
  // ---------------------------------------------------------------

  /**
   * `recover_move_fully`: the colour is the side to move and the moved and
   * captured pieces are read off the board (`pieceOn` is
   * `get_piece_on_square`); a king move of two squares becomes a castle and
   * a pawn move of sixteen squares (a double push) is flagged en passant.
   */
  function RecoverMoveFully(move: Move, turn: Color, pieceOn: int -> PieceType): (m: Move)
    ensures m.from == move.from && m.to == move.to && m.promotion == move.promotion
    ensures m.color == turn && m.moved == pieceOn(move.from) && m.captured == pieceOn(move.to)
    ensures m.isCastle <==> m.moved == King && (m.to - m.from == 2 || m.from - m.to == 2)
    ensures m.isEnPassant <==> IsDoublePawnMove(m)
    ensures m.oldRights == move.oldRights && m.oldEnPassant == move.oldEnPassant
  {
    var moved := pieceOn(move.from);
    var distance := Abs(move.to - move.from);
    move.(color := turn, moved := moved, captured := pieceOn(move.to),
          isCastle := moved == King && distance == 2,
          isEnPassant := moved == Pawn && distance == 16)
  }

  /** Recovery keeps the move equal, under `operator==`, to the one it started from. */
  lemma RecoverKeepsMove(move: Move, turn: Color, pieceOn: int -> PieceType)
    ensures SameMove(RecoverMoveFully(move, turn, pieceOn), move)
    ensures GetInt(RecoverMoveFully(move, turn, pieceOn)) == GetInt(move)
  {
  }

  /**
   * `move_could_result_in_repetition`: captures, pawn moves and castles
   * never can; otherwise it answers `any_appeared_more_than(2)`, here
   * `anyAppeared`.
   */
  function CouldRepeat(move: Move, anyAppeared: bool): (could: bool)
    ensures could ==> anyAppeared && move.captured == NoPiece && move.moved != Pawn && !move.isCastle
  {
    if move.captured != NoPiece || move.moved == Pawn || move.isCastle then false else anyAppeared
  }

  /** An irreversible move never counts as a possible repetition. */
  lemma IrreversibleNeverRepeats(move: Move, anyAppeared: bool)
    ensures CouldRepeat(move, anyAppeared) <==>
      move.captured == NoPiece && move.moved != Pawn && !move.isCastle && anyAppeared
  {
  }

  /**
   * `relevant_pawn_push` for the side to move `turn`: 100 for a destination
   * in the opponent's king zone (`kingZone`), 20 for each of the fifth,
   * sixth and seventh ranks reached (counted from the mover's side), and 15
   * for a free file (`freeFile`, `is_free_file`); 0 for other pieces.
   */
  function RelevantPawnPush(move: Move, turn: Color, kingZone: Bitboard, freeFile: bool): (score: int)
    ensures move.moved != Pawn ==> score == 0
    ensures 0 <= score <= 175
  {
    if move.moved != Pawn then 0
    else
      var zone := if 0 <= move.to < 64 && move.to in kingZone then 100 else 0;
      var advance :=
        if turn == White then
          (if move.to >= 32 then 20 else 0) + (if move.to >= 40 then 20 else 0) + (if move.to >= 48 then 20 else 0)
        else
          (if move.to < 32 then 20 else 0) + (if move.to < 24 then 20 else 0) + (if move.to < 16 then 20 else 0);
      zone + advance + (if freeFile then 15 else 0)
  }

  /** The advance bonus is colour-mirrored: a square and its vertical mirror score the same for the two sides. */
  lemma RelevantPawnPushMirrored(move: Move, kingZone: Bitboard, mirrorZone: Bitboard, freeFile: bool)
    requires move.moved == Pawn && 0 <= move.to < 64
    requires move.to in kingZone <==> (63 - move.to) in mirrorZone
    ensures RelevantPawnPush(move, White, kingZone, freeFile)
         == RelevantPawnPush(move.(to := 63 - move.to), Black, mirrorZone, freeFile)
  {
  }

  // ---------------------------------------------------------------
  // ThreadLocalData: killers and history
  // ---------------------------------------------------------------

  /** A `Move` whose bytes are all zero, as `memset` leaves it: a1-a1, pawn, white. */
  function ZeroMove(): (m: Move)
    ensures m.from == 0 && m.to == 0 && m.moved == Pawn && m.captured == Pawn && m.promotion == Pawn
    ensures m.color == White && !m.isCastle && !m.isEnPassant
  {
    Move(0, 0, Pawn, Pawn, Pawn, White, false, false, "", -1)
  }

  /**
   * The heuristic tables of `ThreadLocalData`: `killer_moves[128][2]` and
   * `history_scores[2][6][64]`.
   */
  class ThreadLocalData {
    var killers: array2<Move>
    var history: array3<int>

    ghost predicate Valid()
      reads this
    {
      killers.Length0 == MAX_PLY && killers.Length1 == 2
      && history.Length0 == 2 && history.Length1 == 6 && history.Length2 == 64
    }

    /** The value-initialised tables: null killers and zero history. */
    constructor ()
      ensures Valid() && fresh(killers) && fresh(history)
      ensures forall p, k :: 0 <= p < MAX_PLY && 0 <= k < 2 ==> killers[p, k] == NullMove()
      ensures forall c, p, s :: 0 <= c < 2 && 0 <= p < 6 && 0 <= s < 64 ==> history[c, p, s] == 0
    {
      killers := new Move[MAX_PLY, 2]((_, _) => NullMove());
      history := new int[2, 6, 64]((_, _, _) => 0);
    }

    /** `killer_moves[ply][0] == move || killer_moves[ply][1] == move`. */
    predicate IsKiller(move: Move, ply: int)
      reads this, killers
      requires Valid() && 0 <= ply < MAX_PLY
    {
      IsKillerOf(move, killers[ply, 0], killers[ply, 1])
    }

    /**
     * `update_history_killer`: a quiet move (nothing captured) shifts the
     * first killer of its ply to the second slot and takes the first; the
     * history cell of its colour, piece and destination gains
     * `depth * depth`. Nothing else changes.
     */
    method UpdateHistoryKiller(move: Move, depth: int, ply: int)
      requires Valid() && 0 <= ply < MAX_PLY && move.moved != NoPiece && 0 <= move.to < 64
      modifies killers, history
      ensures move.captured == NoPiece ==> killers[ply, 0] == move && killers[ply, 1] == old(killers[ply, 0])
      ensures move.captured != NoPiece ==> killers[ply, 0] == old(killers[ply, 0]) && killers[ply, 1] == old(killers[ply, 1])
      ensures forall p, k :: 0 <= p < MAX_PLY && p != ply && 0 <= k < 2 ==> killers[p, k] == old(killers[p, k])
      ensures var c, pc := ColorIndex(move.color), PieceIndex(move.moved);
        history[c, pc, move.to] == old(history[c, pc, move.to]) + depth * depth
        && forall c', p', s' :: 0 <= c' < 2 && 0 <= p' < 6 && 0 <= s' < 64 && (c', p', s') != (c, pc, move.to) ==>
             history[c', p', s'] == old(history[c', p', s'])
    {
      if move.captured == NoPiece {
        killers[ply, 1] := killers[ply, 0];
        killers[ply, 0] := move;
      }
      var bonus := depth * depth;
      var c, pc := ColorIndex(move.color), PieceIndex(move.moved);
      history[c, pc, move.to] := history[c, pc, move.to] + bonus;
    }

    /** `clear_heuristics`: both tables are zero-filled. */
    method ClearHeuristics()
      requires Valid()
      modifies killers, history
      ensures forall p, k :: 0 <= p < MAX_PLY && 0 <= k < 2 ==> killers[p, k] == ZeroMove()
      ensures forall c, p, s :: 0 <= c < 2 && 0 <= p < 6 && 0 <= s < 64 ==> history[c, p, s] == 0
    {
      ZeroKillers(killers);
      ZeroHistory(history);
    }
  }

  /** The `memset` of `killer_moves`. */
  method ZeroKillers(killers: array2<Move>)
    modifies killers
    ensures forall p, k :: 0 <= p < killers.Length0 && 0 <= k < killers.Length1 ==> killers[p, k] == ZeroMove()
  {
    var p := 0;
    while p < killers.Length0
      invariant 0 <= p <= killers.Length0
      invariant forall p', k :: 0 <= p' < p && 0 <= k < killers.Length1 ==> killers[p', k] == ZeroMove()
    {
      var k := 0;
      while k < killers.Length1
        invariant 0 <= k <= killers.Length1
        invariant forall p', k' :: 0 <= p' < p && 0 <= k' < killers.Length1 ==> killers[p', k'] == ZeroMove()
        invariant forall k' :: 0 <= k' < k ==> killers[p, k'] == ZeroMove()
      {
        killers[p, k] := ZeroMove();
        k := k + 1;
      }
      p := p + 1;
    }
  }

  /** The `memset` of `history_scores`. */
  method ZeroHistory(history: array3<int>)
    modifies history
    ensures forall c, p, s :: 0 <= c < history.Length0 && 0 <= p < history.Length1 && 0 <= s < history.Length2 ==>
      history[c, p, s] == 0
  {
    var c := 0;
    while c < history.Length0
      invariant 0 <= c <= history.Length0
      invariant forall c', p, s :: 0 <= c' < c && 0 <= p < history.Length1 && 0 <= s < history.Length2 ==> history[c', p, s] == 0
    {
      ZeroRow(history, c);
      c := c + 1;
    }
  }

  /** One colour of `history_scores`. */
  method ZeroRow(history: array3<int>, c: int)
    requires 0 <= c < history.Length0
    modifies history
    ensures forall c', p, s :: 0 <= c' < history.Length0 && c' != c && 0 <= p < history.Length1 && 0 <= s < history.Length2 ==>
      history[c', p, s] == old(history[c', p, s])
    ensures forall p, s :: 0 <= p < history.Length1 && 0 <= s < history.Length2 ==> history[c, p, s] == 0
  {
    var p := 0;
    while p < history.Length1
      invariant 0 <= p <= history.Length1
      invariant forall c', p', s :: 0 <= c' < history.Length0 && c' != c && 0 <= p' < history.Length1 && 0 <= s < history.Length2 ==>
        history[c', p', s] == old(history[c', p', s])
      invariant forall p', s :: 0 <= p' < p && 0 <= s < history.Length2 ==> history[c, p', s] == 0
    {
      var s := 0;
      while s < history.Length2
        invariant 0 <= s <= history.Length2
        invariant forall c', p', s' :: 0 <= c' < history.Length0 && c' != c && 0 <= p' < history.Length1 && 0 <= s' < history.Length2 ==>
          history[c', p', s'] == old(history[c', p', s'])
        invariant forall p', s' :: 0 <= p' < p && 0 <= s' < history.Length2 ==> history[c, p', s'] == 0
        invariant forall s' :: 0 <= s' < s ==> history[c, p, s'] == 0
      {
        history[c, p, s] := 0;
        s := s + 1;
      }
      p := p + 1;
    }
  }
}
