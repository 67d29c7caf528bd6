// The `Board` class of src/board.cpp: the arrays and fields that the FEN
// reader, `initialize_*`, `make_move` and `undo_move` update in place. Each
// method is proved to perform exactly the step of the `Position` value model
// it stands for, so the lemmas proved there (the make/undo round trip, the
// hash invariant) hold of the class.
module BoardState {
  import opened Bits
  import opened Pieces
  import opened Moves
  import opened Zobrist
  import opened Tables
  import opened Position
  import Fen
  import opened Attacks
  import opened BoardSetup

  /** Toggling one change more: one more toggle on each of the three rows. */
  lemma ChangeSnoc(pb: seq<Bitboard>, cb: seq<Bitboard>, a: Bitboard, cs: seq<Change>, ch: Change)
    requires |pb| == 12 && |cb| == 2 && RealPieces(cs) && ch.piece != NoPiece
    ensures RealPieces(cs + [ch])
    ensures var p := ApplyFlips(pb, PieceFlips(cs)); var k := BoardIndex(ch.color, ch.piece);
      ApplyFlips(pb, PieceFlips(cs + [ch])) == p[k := Xor(p[k], {ch.sq})]
    ensures var c := ApplyFlips(cb, ColorFlips(cs)); var k := ColorIndex(ch.color);
      ApplyFlips(cb, ColorFlips(cs + [ch])) == c[k := Xor(c[k], {ch.sq})]
    ensures ApplyFlips([a], AllFlips(cs + [ch]))[0] == Xor(ApplyFlips([a], AllFlips(cs))[0], {ch.sq})
  {
    var cs2 := cs + [ch];
    assert cs2[..|cs2| - 1] == cs;
    assert PieceFlips(cs2)[..|cs|] == PieceFlips(cs);
    assert ColorFlips(cs2)[..|cs|] == ColorFlips(cs);
    assert AllFlips(cs2)[..|cs|] == AllFlips(cs);
  }

  /** The piece keys of one change more: one more key XORed into the hash. */
  lemma ChangeSnocKeys(keys: Keys, h: Word, cs: seq<Change>, ch: Change)
    requires RealPieces(cs) && ch.piece != NoPiece
    ensures RealPieces(cs + [ch])
    ensures FlipKeys(keys, h, PieceFlips(cs + [ch]))
         == Xor(FlipKeys(keys, h, PieceFlips(cs)), keys.piece(ColorIndex(ch.color), PieceIndex(ch.piece), ch.sq))
  {
    var cs2 := cs + [ch];
    assert PieceFlips(cs2)[..|cs|] == PieceFlips(cs);
  }

  /** XOR with a two-square mask is the two single toggles. */
  lemma XorPair(b: Bitboard, x: Square, y: Square)
    ensures Xor(b, {x, y}) == Xor(Xor(b, {x}), {y}) || x == y
  {
    if x != y {
      assert forall sq: Square :: sq in Xor(b, {x, y}) <==> sq in Xor(Xor(b, {x}), {y});
    }
  }
  /** The rook's two toggles at once: one XOR with the two-square mask on each row. */
  lemma RookPairSnoc(pb: seq<Bitboard>, cb: seq<Bitboard>, a: Bitboard, cs: seq<Change>, c: Color, from: Square, to: Square)
    requires |pb| == 12 && |cb| == 2 && RealPieces(cs) && from != to
    ensures RealPieces(cs + [Change(c, Rook, from), Change(c, Rook, to)])
    ensures var p := ApplyFlips(pb, PieceFlips(cs)); var k := BoardIndex(c, Rook);
      ApplyFlips(pb, PieceFlips(cs + [Change(c, Rook, from), Change(c, Rook, to)])) == p[k := Xor(p[k], {from, to})]
    ensures var q := ApplyFlips(cb, ColorFlips(cs)); var k := ColorIndex(c);
      ApplyFlips(cb, ColorFlips(cs + [Change(c, Rook, from), Change(c, Rook, to)])) == q[k := Xor(q[k], {from, to})]
    ensures ApplyFlips([a], AllFlips(cs + [Change(c, Rook, from), Change(c, Rook, to)]))[0] ==
      Xor(ApplyFlips([a], AllFlips(cs))[0], {from, to})
  {
    var cs1 := cs + [Change(c, Rook, from)];
    assert cs1 + [Change(c, Rook, to)] == cs + [Change(c, Rook, from), Change(c, Rook, to)];
    ChangeSnoc(pb, cb, a, cs, Change(c, Rook, from));
    ChangeSnoc(pb, cb, a, cs1, Change(c, Rook, to));
    RookPairBoards(ApplyFlips(pb, PieceFlips(cs)), BoardIndex(c, Rook), from, to);
    RookPairBoards(ApplyFlips(cb, ColorFlips(cs)), ColorIndex(c), from, to);
    XorPair(ApplyFlips([a], AllFlips(cs))[0], from, to);
  }

  /** Two single toggles of one board in a row are one XOR with the two-square mask. */
  lemma RookPairBoards(p: seq<Bitboard>, k: int, from: Square, to: Square)
    requires 0 <= k < |p| && from != to
    ensures var p1 := p[k := Xor(p[k], {from})];
      p1[k := Xor(p1[k], {to})] == p[k := Xor(p[k], {from, to})]
  {
    XorPair(p[k], from, to);
  }



  /** The keys of the moving piece on `from` and of the arriving piece on `to`. */
  method HashMover(keys: Keys, m: Move, ghost h0: Word, h: Word) returns (r: Word)
    requires Playable(m) && h == FlipKeys(keys, h0, PieceFlips([]))
    ensures r == FlipKeys(keys, h0, PieceFlips(MoverChanges(m)))
  {
    var reached := if m.promotion == NoPiece then m.moved else m.promotion;
    var moveColor := ColorIndex(m.color);
    ChangeSnocKeys(keys, h0, [], Change(m.color, m.moved, m.from));
    r := Xor(h, keys.piece(moveColor, PieceIndex(m.moved), m.from));
    assert [] + [Change(m.color, m.moved, m.from)] == [Change(m.color, m.moved, m.from)];
    ChangeSnocKeys(keys, h0, [Change(m.color, m.moved, m.from)], Change(m.color, reached, m.to));
    r := Xor(r, keys.piece(moveColor, PieceIndex(reached), m.to));
    assert [Change(m.color, m.moved, m.from)] + [Change(m.color, reached, m.to)] == MoverChanges(m);
  }

  /** The key of the captured piece on its square. */
  method HashCapture(keys: Keys, m: Move, ghost h0: Word, ghost cs: seq<Change>, h: Word) returns (r: Word)
    requires Playable(m) && RealPieces(cs) && h == FlipKeys(keys, h0, PieceFlips(cs))
    ensures RealPieces(cs + CaptureChanges(m))
    ensures r == FlipKeys(keys, h0, PieceFlips(cs + CaptureChanges(m)))
  {
    r := h;
    if m.captured != NoPiece {
      var other := if m.color == White then Black else White;
      var captureSquare: Square := if m.isEnPassant then (if m.color == White then m.to - 8 else m.to + 8) else m.to;
      ChangeSnocKeys(keys, h0, cs, Change(other, m.captured, captureSquare));
      r := Xor(r, keys.piece(ColorIndex(other), PieceIndex(m.captured), captureSquare));
    } else {
      assert cs + CaptureChanges(m) == cs;
    }
  }

  /** The keys of the castling rook on its two squares. */
  method HashCastle(keys: Keys, m: Move, ghost h0: Word, ghost cs: seq<Change>, h: Word) returns (r: Word)
    requires Playable(m) && RealPieces(cs) && h == FlipKeys(keys, h0, PieceFlips(cs))
    ensures RealPieces(cs + CastleChanges(m))
    ensures r == FlipKeys(keys, h0, PieceFlips(cs + CastleChanges(m)))
  {
    r := h;
    if m.isCastle {
      var kingSide := m.to > m.from;
      var rook := PieceIndex(Rook);
      var moveColor := ColorIndex(m.color);
      var oldRookSquare: Square := if kingSide then m.to + 1 else m.to - 2;
      var newRookSquare: Square := if kingSide then m.to - 1 else m.to + 1;
      ChangeSnocKeys(keys, h0, cs, Change(m.color, Rook, oldRookSquare));
      r := Xor(r, keys.piece(moveColor, rook, oldRookSquare));
      ChangeSnocKeys(keys, h0, cs + [Change(m.color, Rook, oldRookSquare)], Change(m.color, Rook, newRookSquare));
      r := Xor(r, keys.piece(moveColor, rook, newRookSquare));
      assert cs + [Change(m.color, Rook, oldRookSquare)] + [Change(m.color, Rook, newRookSquare)] == cs + CastleChanges(m);
    } else {
      assert cs + CastleChanges(m) == cs;
    }
  }

  /** One step of the fold at position `i` of the steps. */
  lemma FoldStep(ts: seq<Term>, bound: int, needSquare: bool, info: CheckInfo, i: int)
    requires 0 <= i < |ts|
    ensures var next := AddTerm(info, ts[i], needSquare);
      Fold(ts[i..], bound, needSquare, info) ==
        if next.count >= bound then next else Fold(ts[i + 1..], bound, needSquare, next)
  {
    assert ts[i..][0] == ts[i] && ts[i..][1..] == ts[i + 1..];
  }

  /**
   * The pawn or knight step of `count_attacker_on_square`: add the number of
   * hits and, when a square is wanted and there is a hit, report the lowest.
   */
  method LeaperStep(hits: Bitboard, needSquare: bool, info: CheckInfo) returns (r: CheckInfo)
    ensures r == AddTerm(info, Term(|hits|, Lsb(hits), true), needSquare)
  {
    var number := Popcount(hits);
    r := info.(count := info.count + number);
    if number > 0 && needSquare {
      r := r.(attackerSquare := Lsb(hits));
    }
  }

  /** Folding a concatenation: the second part is folded only when the first did not stop. */
  lemma {:induction false} FoldAppend(a: seq<Term>, b: seq<Term>, bound: int, needSquare: bool, info: CheckInfo)
    requires info.count < bound
    ensures var r := Fold(a, bound, needSquare, info);
      Fold(a + b, bound, needSquare, info) == if r.count >= bound then r else Fold(b, bound, needSquare, r)
    decreases |a|
  {
    if a == [] {
      assert a + b == b;
    } else {
      assert (a + b)[0] == a[0] && (a + b)[1..] == a[1..] + b;
      var next := AddTerm(info, a[0], needSquare);
      if next.count < bound {
        FoldAppend(a[1..], b, bound, needSquare, next);
      }
    }
  }

  /**
   * One pass of a ray loop: the info after ray `2 * j + parity` given its first
   * blocker, folded into the rest of the steps.
   */
  lemma ScanStep(rays: seq<Bitboard>, occupancy: Bitboard, sliders: Bitboard, parity: int,
                 bound: int, needSquare: bool, info: CheckInfo, j: int, blockerSq: int)
    requires |rays| == 8 && (parity == 0 || parity == 1) && 0 <= j < 4 && info.count < bound
    requires blockerSq == FirstBlocker(rays[2 * j + parity], occupancy, 2 * j + parity < 4)
    ensures var steps := RaySteps(rays, occupancy, sliders, parity);
      var next := if blockerSq != -1 && blockerSq in sliders then CheckInfo(info.count + 1, blockerSq) else info;
      && (next.count >= bound ==> next == Fold(steps[j..], bound, needSquare, info))
      && (next.count < bound ==> Fold(steps[j + 1..], bound, needSquare, next) == Fold(steps[j..], bound, needSquare, info))
  {
    var steps := RaySteps(rays, occupancy, sliders, parity);
    FoldStep(steps, bound, needSquare, info, j);
    assert steps[j] == SliderTerm(rays[2 * j + parity], occupancy, sliders, 2 * j + parity < 4);
  }

  /**
   * One pass of a ray loop on ray `2 * j + parity`: nothing on an empty ray,
   * otherwise the first blocker counts when it is one of `sliders`.
   */
  method RayStep(rays: seq<Bitboard>, occupancy: Bitboard, sliders: Bitboard, parity: int,
                 bound: int, needSquare: bool, info: CheckInfo, j: int) returns (next: CheckInfo)
    requires |rays| == 8 && (parity == 0 || parity == 1) && 0 <= j < 4 && info.count < bound
    ensures var steps := RaySteps(rays, occupancy, sliders, parity);
      && (next.count >= bound ==> next == Fold(steps[j..], bound, needSquare, info))
      && (next.count < bound ==> Fold(steps[j + 1..], bound, needSquare, next) == Fold(steps[j..], bound, needSquare, info))
  {
    var dirIndex := 2 * j + parity;
    var blockerSq := FirstBlocker(rays[dirIndex], occupancy, dirIndex < 4);
    ScanStep(rays, occupancy, sliders, parity, bound, needSquare, info, j, blockerSq);
    next := info;
    if blockerSq == -1 {
      return;
    }
    if blockerSq in sliders {
      next := CheckInfo(info.count + 1, blockerSq);
    }
  }

  /**
   * One ray loop of `count_attacker_on_square`: the rays `parity`, `parity + 2`,
   * `parity + 4`, `parity + 6` against `sliders`, stopping once the count
   * reaches `bound`.
   */
  method ScanRays(rays: seq<Bitboard>, occupancy: Bitboard, sliders: Bitboard, parity: int,
                  bound: int, needSquare: bool, start: CheckInfo) returns (info: CheckInfo)
    requires |rays| == 8 && (parity == 0 || parity == 1) && start.count < bound
    ensures info == Fold(RaySteps(rays, occupancy, sliders, parity), bound, needSquare, start)
  {
    ghost var steps := RaySteps(rays, occupancy, sliders, parity);
    ghost var goal := Fold(steps, bound, needSquare, start);
    info := start;
    var j := 0;
    while j < 4
      invariant 0 <= j <= 4
      invariant info.count < bound
      invariant Fold(steps[j..], bound, needSquare, info) == goal
    {
      info := RayStep(rays, occupancy, sliders, parity, bound, needSquare, info, j);
      if info.count >= bound {
        return;
      }
      j := j + 1;
    }
    assert steps[4..] == [];
  }

  /**
   * The body of `count_attacker_on_square` once the pawn and knight hits, the
   * ray masks, the occupancy and the slider sets are read off the board:
   * each step in turn, returning as soon as the count reaches `bound`.
   */
  method CountSteps(pawnHits: Bitboard, knightHits: Bitboard, rays: seq<Bitboard>, occupancy: Bitboard,
                    diagonals: Bitboard, lines: Bitboard, bound: int, needSquare: bool) returns (info: CheckInfo)
    requires |rays| == 8
    ensures info == Fold(Steps(pawnHits, knightHits, rays, occupancy, diagonals, lines), bound, needSquare, CheckInfo(0, -1))
  {
    ghost var ts := Steps(pawnHits, knightHits, rays, occupancy, diagonals, lines);
    ghost var goal := Fold(ts, bound, needSquare, CheckInfo(0, -1));
    assert ts[0] == Term(|pawnHits|, Lsb(pawnHits), true);
    assert ts[1] == Term(|knightHits|, Lsb(knightHits), true);
    info := LeaperStep(pawnHits, needSquare, CheckInfo(0, -1));
    FoldStep(ts, bound, needSquare, CheckInfo(0, -1), 0);
    if info.count >= bound {
      return;
    }
    ghost var afterPawns := info;
    info := LeaperStep(knightHits, needSquare, info);
    FoldStep(ts, bound, needSquare, afterPawns, 1);
    if info.count >= bound {
      return;
    }
    assert goal == Fold(ts[2..], bound, needSquare, info);
    assert ts[2..] == RaySteps(rays, occupancy, diagonals, 0) + RaySteps(rays, occupancy, lines, 1);
    FoldAppend(RaySteps(rays, occupancy, diagonals, 0), RaySteps(rays, occupancy, lines, 1), bound, needSquare, info);
    info := ScanRays(rays, occupancy, diagonals, 0, bound, needSquare, info);
    if info.count >= bound {
      return;
    }
    info := ScanRays(rays, occupancy, lines, 1, bound, needSquare, info);
  }

  /** The body of `XOR_hash_rights` on the hash `h`: one key per right held, then the en-passant file's. */
  method RightsHash(keys: Keys, castlingRights: string, enPassant: int, h: Word) returns (r: Word)
    ensures r == FlipBase(h, RightsWord(keys, RightsOf(castlingRights)), EpWord(keys, enPassant))
  {
    r := h;
    if 'K' in castlingRights { r := Xor(r, keys.castling(WhiteKingside)); }
    if 'Q' in castlingRights { r := Xor(r, keys.castling(WhiteQueenside)); }
    if 'k' in castlingRights { r := Xor(r, keys.castling(BlackKingside)); }
    if 'q' in castlingRights { r := Xor(r, keys.castling(BlackQueenside)); }
    RightsStepsAgree(keys, h, castlingRights);
    ghost var afterRights := r;
    if enPassant != -1 {
      r := Xor(r, keys.enPassant(CRem(enPassant, 8)));
    } else {
      XorZero(r);
    }
    assert r == Xor(afterRights, EpWord(keys, enPassant));
  }

  /** The `make` half of `update_piece_map` on the 64 map entries. */
  method MapMake(pieceMap: array<char>, m: Move)
    requires pieceMap.Length == 64 && Playable(m)
    modifies pieceMap
    ensures pieceMap[..] == MapAfterMake(old(pieceMap[..]), m)
  {
    pieceMap[m.from] := '.';
    var reached := Reached(m);
    var c := PieceChar(reached, m.color);
    pieceMap[m.to] := c;
    if m.isEnPassant {
      var pawnSquare := CaptureSquare(m);
      pieceMap[pawnSquare] := '.';
    }
    if m.isCastle {
      var kingSide := m.to > m.from;
      var oldRookSquare := if kingSide then m.to + 1 else m.to - 2;
      var newRookSquare := if kingSide then m.to - 1 else m.to + 1;
      var r := PieceChar(Rook, m.color);
      pieceMap[oldRookSquare] := '.';
      pieceMap[newRookSquare] := r;
    }
  }

  /** The `undo` half of `update_piece_map`. */
  method MapUndo(pieceMap: array<char>, m: Move)
    requires pieceMap.Length == 64 && Playable(m)
    modifies pieceMap
    ensures pieceMap[..] == MapAfterUndo(old(pieceMap[..]), m)
  {
    pieceMap[m.from] := PieceChar(m.moved, m.color);
    pieceMap[m.to] := '.';
    if m.captured != NoPiece {
      pieceMap[CaptureSquare(m)] := PieceChar(m.captured, CaptureColor(m));
    }
    if m.isCastle {
      var kingSide := m.to > m.from;
      var oldRookSquare := if kingSide then m.to + 1 else m.to - 2;
      var newRookSquare := if kingSide then m.to - 1 else m.to + 1;
      var r := PieceChar(Rook, m.color);
      pieceMap[oldRookSquare] := r;
      pieceMap[newRookSquare] := '.';
    }
  }

  /**
   * The `parse_fen_*` calls after the placement, in order: turn, castling,
   * en passant and the two counters; `ok` is false where one of them throws.
   */
  method ParseFenRest(parts: seq<string>) returns (ok: bool, turn: Color, castling: string, ep: int, half: int, moves: int)
    requires |parts| == 6
    ensures ok <==> Fen.ParseEnPassant(parts[3]).Some? && Fen.Stoi(parts[4]).Some? && Fen.Stoi(parts[5]).Some?
    ensures ok ==>
      turn == Fen.ParseTurn(parts[1]) && castling == Fen.ParseCastling(parts[2])
      && ep == Fen.ParseEnPassant(parts[3]).value && half == Fen.Stoi(parts[4]).value && moves == Fen.Stoi(parts[5]).value
  {
    turn := Fen.ParseTurn(parts[1]);
    castling := Fen.ParseCastling(parts[2]);
    ep, half, moves := -1, 0, 0;
    var e := Fen.ParseEnPassant(parts[3]);
    if e.None? {
      return false, turn, castling, ep, half, moves;
    }
    ep := e.value;
    var h := Fen.Stoi(parts[4]);
    if h.None? {
      return false, turn, castling, ep, half, moves;
    }
    half := h.value;
    var m := Fen.Stoi(parts[5]);
    if m.None? {
      return false, turn, castling, ep, half, moves;
    }
    moves := m.value;
    ok := true;
  }

  class Board {
    /** The Zobrist keys the hash is made of. */
    const keys: Keys
    /** `pieces[color][piece]`. */
    const pieces: array2<Bitboard>
    /** `color_pieces[color]`. */
    const colorPieces: array<Bitboard>
    /** `square_to_piece_map`. */
    const pieceMap: array<char>
    var allPieces: Bitboard
    var turn: Color
    /** The "KQkq" castling string. */
    var castlingRights: string
    var enPassant: int
    var hash: Word
    /** `material_score.score`. */
    var material: int
    var halfMoves: int
    var moveCount: int

    ghost predicate Valid()
    {
      pieces.Length0 == 2 && pieces.Length1 == 6 && colorPieces.Length == 2 && pieceMap.Length == 64
    }

    /** The twelve piece boards, flattened as `color * 6 + piece`. */
    ghost function PieceBoards(): (pb: seq<Bitboard>)
      reads pieces
      requires Valid()
      ensures |pb| == 12
      ensures forall k :: 0 <= k < 12 ==> pb[k] == pieces[k / 6, k % 6]
    {
      seq(12, k requires 0 <= k < 12 && pieces.Length0 == 2 && pieces.Length1 == 6 reads pieces => pieces[k / 6, k % 6])
    }

    /** The board as a `Position.State` value. */
    ghost function Model(): (st: State)
      reads this, pieces, colorPieces, pieceMap
      requires Valid()
      ensures Shaped(st)
    {
      State(PieceBoards(), colorPieces[..], allPieces, pieceMap[..], turn, RightsOf(castlingRights), enPassant,
            hash, material, halfMoves, moveCount)
    }

    /** No piece on any board: the arrays before the FEN is read. */
    ghost predicate PiecesEmpty()
      reads pieces
      requires Valid()
    {
      forall c, p :: 0 <= c < 2 && 0 <= p < 6 ==> pieces[c, p] == {}
    }

    /** The board holds the fields `parse_fen` read. */
    ghost predicate HoldsFen(f: Fen.FenFields)
      reads this, pieces, pieceMap
      requires Valid()
    {
      PieceBoards() == f.placement.boards && pieceMap[..] == f.placement.squares
      && turn == f.turn && castlingRights == f.castling && enPassant == f.enPassant
      && halfMoves == f.halfMoves && moveCount == f.moveCount
    }

    /** The arrays of a board whose FEN is still to be read. */
    constructor (keys: Keys)
      ensures Valid() && PiecesEmpty() && this.keys == keys
      ensures fresh(pieces) && fresh(colorPieces) && fresh(pieceMap)
    {
      this.keys := keys;
      pieces := new Bitboard[2, 6]((_, _) => {});
      colorPieces := new Bitboard[2](_ => {});
      pieceMap := new char[64](_ => '.');
      allPieces := {};
      turn := White;
      castlingRights := "";
      enPassant := -1;
      hash := {};
      material := 0;
      halfMoves := 0;
      moveCount := 0;
    }

    /** The piece arrays hold exactly the flattened boards. */
    lemma HoldsBoards()
      requires Valid()
      ensures Holds(pieces, PieceBoards())
    {
      forall c, p | 0 <= c < 2 && 0 <= p < 6 ensures pieces[c, p] == PieceBoards()[c * 6 + p] {
        assert (c * 6 + p) / 6 == c && (c * 6 + p) % 6 == p;
      }
    }

    /** Arrays that hold `pb` flatten to `pb`. */
    lemma BoardsOfHolds(pb: seq<Bitboard>)
      requires Valid() && Holds(pieces, pb)
      ensures PieceBoards() == pb
    {
      forall k | 0 <= k < 12 ensures PieceBoards()[k] == pb[k] {
        assert k == (k / 6) * 6 + k % 6;
      }
    }

    // ---------------------------------------------------------------
    // The Board(fen) constructor
    // ---------------------------------------------------------------

    /**
     * The `Board(fen)` constructor once its arrays exist: `parse_fen`, then
     * `initialize_board`, `initialize_hash` and `initialize_material_score`.
     * `ok` is false exactly where `parse_fen` throws; otherwise the board
     * holds the fields of the FEN, is coherent, and its hash and material
     * agree with their definitions.
     */
    method Setup(fen: string) returns (ok: bool)
      requires Valid() && PiecesEmpty()
      modifies this, pieces, colorPieces, pieceMap
      ensures ok <==> Fen.ParseFen(fen).Some?
      ensures ok ==> HoldsFen(Fen.ParseFen(fen).value)
      ensures ok ==> Coherent(Model()) && HashConsistent(keys, Model()) && material == MaterialOf(PieceBoards())
    {
      ok := ReadFen(fen);
      if ok {
        Initialize();
      }
    }

    /** `parse_fen`: the fields of the FEN, or `false` where it throws. */
    method ReadFen(fen: string) returns (ok: bool)
      requires Valid() && PiecesEmpty()
      modifies this`turn, this`castlingRights, this`enPassant, this`halfMoves, this`moveCount, pieces, pieceMap
      ensures ok <==> Fen.ParseFen(fen).Some?
      ensures ok ==> HoldsFen(Fen.ParseFen(fen).value)
    {
      var parts := Fen.SplitFen(fen);
      if |parts| != 6 {
        return false;
      }
      ok := ParsePieces(parts[0]);
      if !ok {
        Fen.ParseFenPlacementFails(fen);
        return false;
      }
      ghost var pl := Fen.PlaceAll(Fen.StartPlacement(), parts[0]).value;
      var t, rights, ep, half, moves;
      ok, t, rights, ep, half, moves := ParseFenRest(parts);
      Fen.ParseFenRestCases(fen, pl);
      if ok {
        ghost var f := Fen.ParseFen(fen).value;
        assert f.placement == pl;
        SetFenFields(t, rights, ep, half, moves);
        assert HoldsFen(f);
      }
    }

    /** The assignments of `parse_fen_turn` .. `parse_fen_move`. */
    method SetFenFields(t: Color, rights: string, ep: int, half: int, moves: int)
      modifies this`turn, this`castlingRights, this`enPassant, this`halfMoves, this`moveCount
      ensures turn == t && castlingRights == rights && enPassant == ep && halfMoves == half && moveCount == moves
    {
      turn, castlingRights, enPassant, halfMoves, moveCount := t, rights, ep, half, moves;
    }

    /** `initialize_board`, `initialize_hash` and `initialize_material_score`, in that order. */
    method Initialize()
      requires Valid()
      modifies colorPieces, this`allPieces, this`hash, this`material
      ensures Coherent(Model()) && HashConsistent(keys, Model()) && material == MaterialOf(PieceBoards())
    {
      InitializeBoard();
      ghost var st := Model();
      var h := InitializeHash();
      var score := InitializeMaterialScore();
      hash, material := h, score;
      assert Model() == st.(hash := h, material := score);
    }

    /** `parse_fen_pieces` on the board's own arrays. */
    method ParsePieces(data: string) returns (ok: bool)
      requires Valid() && PiecesEmpty()
      modifies pieces, pieceMap
      ensures ok <==> Fen.PlaceAll(Fen.StartPlacement(), data).Some?
      ensures ok ==> var pl := Fen.PlaceAll(Fen.StartPlacement(), data).value;
        PieceBoards() == pl.boards && pieceMap[..] == pl.squares
    {
      assert Holds(pieces, seq(12, _ => {})) by {
        forall c, p | 0 <= c < 2 && 0 <= p < 6 ensures pieces[c, p] == seq(12, _ => {})[c * 6 + p] {
        }
      }
      ghost var boards;
      ok, boards := PlacePieces(pieces, pieceMap, data);
      if ok {
        BoardsOfHolds(boards);
      }
    }

    /** `initialize_board`: the colour boards and `all_pieces` from the piece boards. */
    method InitializeBoard()
      requires Valid()
      modifies colorPieces, this`allPieces
      ensures colorPieces[0] == UnionOf(PieceBoards(), 0, 6) && colorPieces[1] == UnionOf(PieceBoards(), 1, 6)
      ensures allPieces == colorPieces[0] + colorPieces[1]
      ensures Coherent(Model())
    {
      HoldsBoards();
      var white, black := UnionLoop(pieces, PieceBoards());
      colorPieces[0] := white;
      colorPieces[1] := black;
      allPieces := white + black;
    }

    /** `initialize_hash`: the hash recomputed from the position. */
    method InitializeHash() returns (h: Word)
      requires Valid()
      ensures h == ZobristOf(keys, Model())
    {
      HoldsBoards();
      h := PiecesHash(keys, pieces, PieceBoards());
      if turn == Black {
        h := Xor(h, keys.blackToMove);
      }
      h := RightsHash(keys, castlingRights, enPassant, h);
    }

    /** `initialize_material_score`: white's material minus black's. */
    method InitializeMaterialScore() returns (score: int)
      requires Valid()
      ensures score == MaterialOf(PieceBoards())
    {
      HoldsBoards();
      score := MaterialLoop(pieces, PieceBoards());
    }

    // ---------------------------------------------------------------
    // The steps of make_move / undo_move
    // ---------------------------------------------------------------

    /** `update_material_score`. */
    method UpdateMaterialScore(m: Move, undo: bool)
      requires Valid()
      modifies this`material
      ensures Model() == Position.UpdateMaterial(old(Model()), m, undo)
    {
      var weight := if undo then 1 else -1;
      if m.captured != NoPiece {
        material := material + weight * PieceValue(CaptureColor(m), m.captured);
      }
      if m.promotion != NoPiece {
        material := material - weight * PieceValue(m.color, m.promotion);
        material := material + weight * PieceValue(m.color, Pawn);
      }
    }

    /** `XOR_hash_rights`: the keys of the rights held and of the en-passant file. */
    method XorHashRights()
      requires Valid()
      modifies this`hash
      ensures hash == FlipBase(old(hash), RightsWord(keys, RightsOf(castlingRights)), EpWord(keys, enPassant))
      ensures Model() == Position.XorHashRights(keys, old(Model()))
    {
      hash := RightsHash(keys, castlingRights, enPassant, hash);
    }

    /** `update_castle_rights`: the string edits on make, the move's snapshot on undo. */
    method UpdateCastleRights(m: Move, undo: bool)
      requires Valid()
      modifies this`castlingRights
      ensures castlingRights == if undo then m.oldRights else CastleRightsString(old(castlingRights), m)
      ensures Model() == Position.UpdateCastleRights(old(Model()), m, undo)
    {
      if !undo {
        var rights := castlingRights;
        if m.moved == King {
          if m.color == White {
            rights := RemoveCastlingRight(rights, 'K');
            rights := RemoveCastlingRight(rights, 'Q');
          } else {
            rights := RemoveCastlingRight(rights, 'k');
            rights := RemoveCastlingRight(rights, 'q');
          }
        }
        assert rights == KingEdits(castlingRights, m);
        if m.from == 7 { rights := RemoveCastlingRight(rights, 'K'); }
        if m.from == 0 { rights := RemoveCastlingRight(rights, 'Q'); }
        if m.from == 63 { rights := RemoveCastlingRight(rights, 'k'); }
        if m.from == 56 { rights := RemoveCastlingRight(rights, 'q'); }
        assert rights == SquareEdits(KingEdits(castlingRights, m), m.from);
        if m.to == 7 { rights := RemoveCastlingRight(rights, 'K'); }
        if m.to == 0 { rights := RemoveCastlingRight(rights, 'Q'); }
        if m.to == 63 { rights := RemoveCastlingRight(rights, 'k'); }
        if m.to == 56 { rights := RemoveCastlingRight(rights, 'q'); }
        assert rights == CastleRightsString(castlingRights, m);
        CastleRightsStringAgrees(castlingRights, m);
        castlingRights := rights;
      } else {
        castlingRights := m.oldRights;
      }
    }

    /** `update_en_passsant_rights`. */
    method UpdateEnPassantRights(m: Move, undo: bool)
      requires Valid()
      modifies this`enPassant
      ensures Model() == Position.UpdateEnPassant(old(Model()), m, undo)
    {
      if !undo {
        enPassant := -1;
        if IsDoublePawnMove(m) {
          enPassant := if m.color == White then m.to - 8 else m.to + 8;
        }
      } else {
        enPassant := m.oldEnPassant;
      }
    }

    /** The rows are the start rows with the changes `cs` toggled in. */
    ghost predicate ToggledBy(pb: seq<Bitboard>, cb: seq<Bitboard>, a: Bitboard, cs: seq<Change>)
      reads this, pieces, colorPieces
      requires Valid() && |pb| == 12 && |cb| == 2 && RealPieces(cs)
    {
      && PieceBoards() == ApplyFlips(pb, PieceFlips(cs))
      && colorPieces[..] == ApplyFlips(cb, ColorFlips(cs))
      && allPieces == ApplyFlips([a], AllFlips(cs))[0]
    }

    /** The three XORs `update_pieces` makes for one piece: its board, its colour, all pieces. */
    method XorPiece(c: Color, p: PieceType, mask: Bitboard)
      requires Valid() && p != NoPiece
      modifies pieces, colorPieces, this`allPieces
      ensures PieceBoards() == old(PieceBoards())[BoardIndex(c, p) := Xor(old(PieceBoards())[BoardIndex(c, p)], mask)]
      ensures colorPieces[..] == old(colorPieces[..])[ColorIndex(c) := Xor(old(colorPieces[ColorIndex(c)]), mask)]
      ensures allPieces == Xor(old(allPieces), mask)
    {
      pieces[ColorIndex(c), PieceIndex(p)] := Xor(pieces[ColorIndex(c), PieceIndex(p)], mask);
      colorPieces[ColorIndex(c)] := Xor(colorPieces[ColorIndex(c)], mask);
      allPieces := Xor(allPieces, mask);
    }

    /** One piece toggled on one square: one more change. */
    method TogglePiece(ch: Change, ghost pb: seq<Bitboard>, ghost cb: seq<Bitboard>, ghost a: Bitboard, ghost cs: seq<Change>)
      requires Valid() && |pb| == 12 && |cb| == 2 && RealPieces(cs) && ch.piece != NoPiece
      requires ToggledBy(pb, cb, a, cs)
      modifies pieces, colorPieces, this`allPieces
      ensures RealPieces(cs + [ch]) && ToggledBy(pb, cb, a, cs + [ch])
    {
      ChangeSnoc(pb, cb, a, cs, ch);
      XorPiece(ch.color, ch.piece, {ch.sq});
    }

    /** The castling rook moved with one two-square mask: two more changes. */
    method ToggleRookPair(c: Color, from: Square, to: Square,
                          ghost pb: seq<Bitboard>, ghost cb: seq<Bitboard>, ghost a: Bitboard, ghost cs: seq<Change>)
      requires Valid() && |pb| == 12 && |cb| == 2 && RealPieces(cs) && from != to
      requires ToggledBy(pb, cb, a, cs)
      modifies pieces, colorPieces, this`allPieces
      ensures RealPieces(cs + [Change(c, Rook, from), Change(c, Rook, to)])
      ensures ToggledBy(pb, cb, a, cs + [Change(c, Rook, from), Change(c, Rook, to)])
    {
      XorPiece(c, Rook, {from, to});
      RookPairSnoc(pb, cb, a, cs, c, from, to);
    }

    /** `update_pieces`: toggle the mover, the reached piece, the captured piece and the castling rook. */
    method UpdatePieces(m: Move)
      requires Valid() && Playable(m)
      modifies pieces, colorPieces, this`allPieces
      ensures Model() == Position.UpdatePieces(old(Model()), m)
    {
      ToggleChanges(m);
    }

    /** The toggles of `update_pieces`, on the three rows of bitboards. */
    method ToggleChanges(m: Move)
      requires Valid() && Playable(m)
      modifies pieces, colorPieces, this`allPieces
      ensures PieceBoards() == ApplyFlips(old(PieceBoards()), PieceFlips(Changes(m)))
      ensures colorPieces[..] == ApplyFlips(old(colorPieces[..]), ColorFlips(Changes(m)))
      ensures allPieces == ApplyFlips([old(allPieces)], AllFlips(Changes(m)))[0]
    {
      ghost var pb, cb, a := PieceBoards(), colorPieces[..], allPieces;
      assert ToggledBy(pb, cb, a, []);
      ToggleMover(m, pb, cb, a);
      ToggleCapture(m, pb, cb, a, MoverChanges(m));
      ToggleCastle(m, pb, cb, a, MoverChanges(m) + CaptureChanges(m));
    }

    /** The moving piece off `from`, the arriving piece onto `to`. */
    method ToggleMover(m: Move, ghost pb: seq<Bitboard>, ghost cb: seq<Bitboard>, ghost a: Bitboard)
      requires Valid() && Playable(m) && |pb| == 12 && |cb| == 2
      requires ToggledBy(pb, cb, a, [])
      modifies pieces, colorPieces, this`allPieces
      ensures ToggledBy(pb, cb, a, MoverChanges(m))
    {
      var reached := if m.promotion == NoPiece then m.moved else m.promotion;
      TogglePiece(Change(m.color, m.moved, m.from), pb, cb, a, []);
      assert [] + [Change(m.color, m.moved, m.from)] == [Change(m.color, m.moved, m.from)];
      TogglePiece(Change(m.color, reached, m.to), pb, cb, a, [Change(m.color, m.moved, m.from)]);
      assert [Change(m.color, m.moved, m.from)] + [Change(m.color, reached, m.to)] == MoverChanges(m);
    }

    /** The captured piece off its square. */
    method ToggleCapture(m: Move, ghost pb: seq<Bitboard>, ghost cb: seq<Bitboard>, ghost a: Bitboard, ghost cs: seq<Change>)
      requires Valid() && Playable(m) && |pb| == 12 && |cb| == 2 && RealPieces(cs)
      requires ToggledBy(pb, cb, a, cs)
      modifies pieces, colorPieces, this`allPieces
      ensures RealPieces(cs + CaptureChanges(m)) && ToggledBy(pb, cb, a, cs + CaptureChanges(m))
    {
      if m.captured != NoPiece {
        var other := if m.color == White then Black else White;
        var captureSquare: Square := if m.isEnPassant then (if m.color == White then m.to - 8 else m.to + 8) else m.to;
        TogglePiece(Change(other, m.captured, captureSquare), pb, cb, a, cs);
      } else {
        assert cs + CaptureChanges(m) == cs;
      }
    }

    /** The castling rook from its corner to its square beside the king. */
    method ToggleCastle(m: Move, ghost pb: seq<Bitboard>, ghost cb: seq<Bitboard>, ghost a: Bitboard, ghost cs: seq<Change>)
      requires Valid() && Playable(m) && |pb| == 12 && |cb| == 2 && RealPieces(cs)
      requires ToggledBy(pb, cb, a, cs)
      modifies pieces, colorPieces, this`allPieces
      ensures RealPieces(cs + CastleChanges(m)) && ToggledBy(pb, cb, a, cs + CastleChanges(m))
    {
      if m.isCastle {
        var kingSide := m.to > m.from;
        var oldRookSquare: Square := if kingSide then m.to + 1 else m.to - 2;
        var newRookSquare: Square := if kingSide then m.to - 1 else m.to + 1;
        ToggleRookPair(m.color, oldRookSquare, newRookSquare, pb, cb, a, cs);
      } else {
        assert cs + CastleChanges(m) == cs;
      }
    }

    /** `update_piece_map`. */
    method UpdatePieceMap(m: Move, undo: bool)
      requires Valid() && Playable(m)
      modifies pieceMap
      ensures Model() == Position.UpdatePieceMap(old(Model()), m, undo)
    {
      if !undo {
        MapMake(pieceMap, m);
      } else {
        MapUndo(pieceMap, m);
      }
    }

    /** `update_pieces_hash`: the piece key of every square `update_pieces` toggles. */
    method UpdatePiecesHash(m: Move)
      requires Valid() && Playable(m)
      modifies this`hash
      ensures hash == FlipKeys(keys, old(hash), PieceFlips(Changes(m)))
      ensures Model() == Position.UpdatePiecesHash(keys, old(Model()), m)
    {
      ghost var h0 := hash;
      assert PieceFlips([]) == [];
      var h := HashMover(keys, m, h0, hash);
      h := HashCapture(keys, m, h0, MoverChanges(m), h);
      h := HashCastle(keys, m, h0, MoverChanges(m) + CaptureChanges(m), h);
      hash := h;
    }

    /** `make_move`: the nine steps in the source's order. */
    method MakeMove(m: Move)
      requires Valid() && Playable(m)
      modifies this, pieces, colorPieces, pieceMap
      ensures Valid()
      ensures castlingRights == CastleRightsString(old(castlingRights), m)
      ensures Model() == Make(keys, old(Model()), m)
    {
      UpdateMaterialScore(m, false);
      XorHashRights();
      UpdateCastleRights(m, false);
      UpdateEnPassantRights(m, false);
      UpdatePieces(m);
      UpdatePieceMap(m, false);
      UpdatePiecesHash(m);
      XorHashRights();
      UpdateTurnRights();
    }

    /** `undo_move`: the same steps in reverse order, rights taken back from the move. */
    method UndoMove(m: Move)
      requires Valid() && Playable(m)
      modifies this, pieces, colorPieces, pieceMap
      ensures Valid()
      ensures castlingRights == m.oldRights
      ensures Model() == Undo(keys, old(Model()), m)
    {
      UpdateTurnRights();
      XorHashRights();
      UpdatePiecesHash(m);
      UpdatePieceMap(m, true);
      UpdatePieces(m);
      UpdateEnPassantRights(m, true);
      UpdateCastleRights(m, true);
      XorHashRights();
      UpdateMaterialScore(m, true);
    }

    /** `make_null_move`: drop the en-passant square and its key, pass the turn; the old square is returned. */
    method MakeNullMove() returns (originalEp: int)
      requires Valid()
      modifies this`enPassant, this`turn, this`hash
      ensures (Model(), originalEp) == Position.MakeNullMove(keys, old(Model()))
    {
      originalEp := enPassant;
      ghost var h0 := hash;
      if enPassant != -1 {
        hash := Xor(hash, keys.enPassant(CRem(enPassant, 8)));
      } else {
        XorZero(hash);
      }
      assert hash == Xor(h0, EpWord(keys, originalEp));
      enPassant := -1;
      turn := if turn == White then Black else White;
      hash := Xor(hash, keys.blackToMove);
    }

    /** `undo_null_move`: pass the turn back and restore the square handed in, with its key. */
    method UndoNullMove(originalEp: int)
      requires Valid()
      modifies this`enPassant, this`turn, this`hash
      ensures Model() == Position.UndoNullMove(keys, old(Model()), originalEp)
    {
      turn := if turn == White then Black else White;
      hash := Xor(hash, keys.blackToMove);
      enPassant := originalEp;
      ghost var h1 := hash;
      if enPassant != -1 {
        hash := Xor(hash, keys.enPassant(CRem(enPassant, 8)));
      } else {
        XorZero(hash);
      }
      assert hash == Xor(h1, EpWord(keys, originalEp));
    }

    /**
     * `count_attacker_on_square`: pawns, knights, the four diagonal rays and
     * the four straight rays, returning as soon as the count reaches `bound`.
     */
    method CountAttackerOnSquare(square: Square, attacker: Color, bound: int, needSquare: bool) returns (info: CheckInfo)
      requires Valid()
      ensures info == Attacks.AttackInfo(Model(), square, attacker, bound, needSquare)
    {
      ghost var st := Model();
      var other := if attacker == Black then White else Black;
      var a := ColorIndex(attacker);
      var pawnHits := pieces[a, PieceIndex(Pawn)] * PawnAttacks(ColorIndex(other), square);
      var knightHits := pieces[a, PieceIndex(Knight)] * KnightAttacks(square);
      var occupancy := Xor(allPieces, pieces[ColorIndex(other), PieceIndex(King)]);
      var diagonals := pieces[a, PieceIndex(Queen)] + pieces[a, PieceIndex(Bishop)];
      var lines := pieces[a, PieceIndex(Queen)] + pieces[a, PieceIndex(Rook)];
      assert pawnHits == PawnHits(st, square, attacker);
      assert knightHits == KnightHits(st, square, attacker);
      assert occupancy == SliderOccupancy(st, attacker);
      assert diagonals == LoopSliders(st, attacker, 0);
      assert lines == LoopSliders(st, attacker, 1);
      info := CountSteps(pawnHits, knightHits, RayMasks(square), occupancy, diagonals, lines, bound, needSquare);
    }

    /** `in_check`: the side to move has its king attacked at least once. */
    method InCheck() returns (b: bool)
      requires Valid() && pieces[ColorIndex(turn), PieceIndex(King)] != {}
      ensures b == Attacks.InCheck(Model())
    {
      var color := turn;
      var attackerColor := if turn == White then Black else White;
      var kingSq := Lsb(pieces[ColorIndex(color), PieceIndex(King)]);
      var info := CountAttackerOnSquare(kingSq, attackerColor, 1, false);
      b := info.count >= 1;
    }

    /** `has_enough_material_for_nmp`: the side to move has a knight, bishop, rook or queen. */
    method HasEnoughMaterialForNmp() returns (b: bool)
      requires Valid()
      ensures b <==> exists p :: p in {Knight, Bishop, Rook, Queen} && Model().pieces[BoardIndex(turn, p)] != {}
    {
      var t := ColorIndex(turn);
      var officers := pieces[t, PieceIndex(Knight)] + pieces[t, PieceIndex(Bishop)]
                    + pieces[t, PieceIndex(Rook)] + pieces[t, PieceIndex(Queen)];
      b := officers != {};
      ghost var st := Model();
      if b {
        if pieces[t, PieceIndex(Knight)] != {} { assert st.pieces[BoardIndex(turn, Knight)] != {}; }
        else if pieces[t, PieceIndex(Bishop)] != {} { assert st.pieces[BoardIndex(turn, Bishop)] != {}; }
        else if pieces[t, PieceIndex(Rook)] != {} { assert st.pieces[BoardIndex(turn, Rook)] != {}; }
        else { assert st.pieces[BoardIndex(turn, Queen)] != {}; }
      }
    }

    /** `update_turn_rights`: flip the side to move and its key. */
    method UpdateTurnRights()
      requires Valid()
      modifies this`turn, this`hash
      ensures Model() == UpdateTurn(keys, old(Model()))
    {
      turn := if turn == White then Black else White;
      hash := Xor(hash, keys.blackToMove);
    }
  }

  /** The four tests of `XOR_hash_rights` on the string are one XOR with the word of the rights held. */
  lemma RightsStepsAgree(keys: Keys, h: Word, s: string)
    ensures var h1 := if 'K' in s then Xor(h, keys.castling(WhiteKingside)) else h;
      var h2 := if 'Q' in s then Xor(h1, keys.castling(WhiteQueenside)) else h1;
      var h3 := if 'k' in s then Xor(h2, keys.castling(BlackKingside)) else h2;
      var h4 := if 'q' in s then Xor(h3, keys.castling(BlackQueenside)) else h3;
      h4 == Xor(h, RightsWord(keys, RightsOf(s)))
  {
    var h1 := if 'K' in s then Xor(h, keys.castling(WhiteKingside)) else h;
    var h2 := if 'Q' in s then Xor(h1, keys.castling(WhiteQueenside)) else h1;
    var h3 := if 'k' in s then Xor(h2, keys.castling(BlackKingside)) else h2;
    var h4 := if 'q' in s then Xor(h3, keys.castling(BlackQueenside)) else h3;
    assert forall sq: Square :: sq in h4 <==> sq in Xor(h, RightsWord(keys, RightsOf(s)));
  }
}
