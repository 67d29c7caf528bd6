// What `Board::count_attacker_on_square` and `Board::in_check` compute
// (src/board.cpp), stated on the `Position.State` value.
module Attacks {
  import opened Bits
  import opened Pieces
  import opened Tables
  import opened Position

  /** `CheckInfo`: the attackers counted so far and the last attacker square seen. */
  datatype CheckInfo = CheckInfo(count: int, attackerSquare: int)

  /** The attacker's pawns that attack `sq`: the defender's pawn pattern seen from `sq`. */
  function PawnHits(st: State, sq: Square, c: Color): Bitboard
    requires Shaped(st)
  {
    st.pieces[BoardIndex(c, Pawn)] * PawnAttacks(ColorIndex(Opponent(c)), sq)
  }

  function KnightHits(st: State, sq: Square, c: Color): Bitboard
    requires Shaped(st)
  {
    st.pieces[BoardIndex(c, Knight)] * KnightAttacks(sq)
  }

  /** The occupancy the slider rays look through: everything but the defending king. */
  function SliderOccupancy(st: State, c: Color): Bitboard
    requires Shaped(st)
  {
    Xor(st.all, st.pieces[BoardIndex(Opponent(c), King)])
  }

  /** The first piece on ray `dir` from `sq`; rays 0 .. 3 run to higher squares. */
  function RayBlocker(st: State, sq: Square, c: Color, dir: int): int
    requires Shaped(st) && 0 <= dir < 8
  {
    FirstBlocker(RayMask(dir, sq), SliderOccupancy(st, c), dir < 4)
  }

  /** The even rays 0, 2, 4, 6 are the diagonals, the odd rays the files and ranks. */
  predicate Diagonal(dir: int)
  {
    dir == 0 || dir == 2 || dir == 4 || dir == 6
  }

  /** The sliders that attack along ray `dir`: queens, plus bishops on even rays and rooks on odd ones. */
  function RaySliders(st: State, c: Color, dir: int): Bitboard
    requires Shaped(st)
  {
    st.pieces[BoardIndex(c, Queen)] + st.pieces[BoardIndex(c, if Diagonal(dir) then Bishop else Rook)]
  }

  predicate RayHit(st: State, sq: Square, c: Color, dir: int)
    requires Shaped(st) && 0 <= dir < 8
  {
    RayBlocker(st, sq, c, dir) != -1 && RayBlocker(st, sq, c, dir) in RaySliders(st, c, dir)
  }

  /**
   * One step of the count: how many attackers it adds, the square it reports,
   * and whether that square is reported only when `need_square` is set.
   */
  datatype Term = Term(count: int, square: int, onlyIfNeeded: bool)

  /** `RAY_MASK[dir][sq]` for the eight directions of one square. */
  function RayMasks(sq: Square): (rays: seq<Bitboard>)
    ensures |rays| == 8 && forall d :: 0 <= d < 8 ==> rays[d] == RayMask(d, sq)
  {
    seq(8, d requires 0 <= d < 8 => RayMask(d, sq))
  }

  /** What one ray adds: one attacker when its first blocker is one of `sliders`. */
  function SliderTerm(ray: Bitboard, occupancy: Bitboard, sliders: Bitboard, forwards: bool): (t: Term)
    ensures t.count > 0 ==> t.square in sliders && t.square == FirstBlocker(ray, occupancy, forwards)
  {
    var b := FirstBlocker(ray, occupancy, forwards);
    if b != -1 && b in sliders then Term(1, b, false) else Term(0, -1, false)
  }

  /**
   * The four steps of one ray loop of `count_attacker_on_square`: the rays
   * `parity`, `parity + 2`, `parity + 4` and `parity + 6`, in that order.
   */
  function RaySteps(rays: seq<Bitboard>, occupancy: Bitboard, sliders: Bitboard, parity: int): (steps: seq<Term>)
    requires |rays| == 8 && (parity == 0 || parity == 1)
    ensures |steps| == 4
  {
    seq(4, j requires 0 <= j < 4 => SliderTerm(rays[2 * j + parity], occupancy, sliders, 2 * j + parity < 4))
  }

  /** The sliders of the diagonal loop (`parity` 0: queens and bishops) or the straight loop (queens and rooks). */
  function LoopSliders(st: State, c: Color, parity: int): Bitboard
    requires Shaped(st)
  {
    st.pieces[BoardIndex(c, Queen)] + st.pieces[BoardIndex(c, if parity == 0 then Bishop else Rook)]
  }

  /**
   * The ten steps of `count_attacker_on_square` given the pawn and knight hits,
   * the ray masks of the square, the occupancy the rays look through and the
   * two slider sets: pawns, knights, the diagonal loop, the straight loop.
   */
  function Steps(pawnHits: Bitboard, knightHits: Bitboard, rays: seq<Bitboard>, occupancy: Bitboard,
                 diagonals: Bitboard, lines: Bitboard): (ts: seq<Term>)
    requires |rays| == 8
    ensures |ts| == 10
  {
    [Term(|pawnHits|, Lsb(pawnHits), true), Term(|knightHits|, Lsb(knightHits), true)]
    + RaySteps(rays, occupancy, diagonals, 0)
    + RaySteps(rays, occupancy, lines, 1)
  }

  /** The ten steps for square `sq` and attacker `c` in `st`. */
  function Terms(st: State, sq: Square, c: Color): (ts: seq<Term>)
    requires Shaped(st)
    ensures |ts| == 10
  {
    Steps(PawnHits(st, sq, c), KnightHits(st, sq, c), RayMasks(sq), SliderOccupancy(st, c),
          LoopSliders(st, c, 0), LoopSliders(st, c, 1))
  }

  /** Add one step to the running info. */
  function AddTerm(info: CheckInfo, t: Term, needSquare: bool): CheckInfo
  {
    CheckInfo(info.count + t.count,
              if t.count > 0 && (needSquare || !t.onlyIfNeeded) then t.square else info.attackerSquare)
  }

  /** The steps added in order, stopping as soon as the count reaches `bound`. */
  function Fold(ts: seq<Term>, bound: int, needSquare: bool, info: CheckInfo): CheckInfo
    decreases |ts|
  {
    if ts == [] then info
    else
      var next := AddTerm(info, ts[0], needSquare);
      if next.count >= bound then next else Fold(ts[1..], bound, needSquare, next)
  }

  /** `count_attacker_on_square(square, attacker_color, bound, need_square)`. */
  function AttackInfo(st: State, sq: Square, c: Color, bound: int, needSquare: bool): (info: CheckInfo)
    requires Shaped(st)
    ensures info.count >= 0
  {
    TermsNonNegative(st, sq, c);
    FoldNonNegative(Terms(st, sq, c), bound, needSquare, CheckInfo(0, -1));
    Fold(Terms(st, sq, c), bound, needSquare, CheckInfo(0, -1))
  }

  /** The sum of the counts of the steps. */
  function Total(ts: seq<Term>): int
  {
    if ts == [] then 0 else ts[0].count + Total(ts[1..])
  }

  predicate NonNegative(ts: seq<Term>)
  {
    forall i :: 0 <= i < |ts| ==> ts[i].count >= 0
  }

  /** Every attacker of `sq` counted with no early stop. */
  function AttackerTotal(st: State, sq: Square, c: Color): (n: int)
    requires Shaped(st)
  {
    Total(Terms(st, sq, c))
  }

  /**
   * The early stop decides nothing about reaching the bound: the folded
   * count reaches `bound` exactly when the full sum does, is the full sum when
   * that stays below, and never exceeds it.
   */
  lemma {:induction false} FoldCount(ts: seq<Term>, bound: int, needSquare: bool, info: CheckInfo)
    requires NonNegative(ts)
    ensures var r := Fold(ts, bound, needSquare, info);
      && (r.count >= bound <==> info.count + Total(ts) >= bound)
      && (info.count + Total(ts) < bound ==> r.count == info.count + Total(ts))
      && r.count <= info.count + Total(ts)
    decreases |ts|
  {
    if ts != [] {
      assert NonNegative(ts[1..]) by {
        forall i | 0 <= i < |ts[1..]| ensures ts[1..][i].count >= 0 { assert ts[1..][i] == ts[i + 1]; }
      }
      TotalNonNegative(ts[1..]);
      FoldCount(ts[1..], bound, needSquare, AddTerm(info, ts[0], needSquare));
    }
  }

  lemma {:induction false} TotalNonNegative(ts: seq<Term>)
    requires NonNegative(ts)
    ensures Total(ts) >= 0
    decreases |ts|
  {
    if ts != [] {
      assert NonNegative(ts[1..]) by {
        forall i | 0 <= i < |ts[1..]| ensures ts[1..][i].count >= 0 { assert ts[1..][i] == ts[i + 1]; }
      }
      TotalNonNegative(ts[1..]);
    }
  }

  /** No step takes attackers away. */
  lemma StepsNonNegative(pawnHits: Bitboard, knightHits: Bitboard, rays: seq<Bitboard>, occupancy: Bitboard,
                         diagonals: Bitboard, lines: Bitboard)
    requires |rays| == 8
    ensures NonNegative(Steps(pawnHits, knightHits, rays, occupancy, diagonals, lines))
  {
    var ts := Steps(pawnHits, knightHits, rays, occupancy, diagonals, lines);
    var d := RaySteps(rays, occupancy, diagonals, 0);
    var l := RaySteps(rays, occupancy, lines, 1);
    assert ts == [ts[0], ts[1]] + d + l;
    forall i | 0 <= i < 10 ensures ts[i].count >= 0 {
      if 2 <= i < 6 {
        assert ts[i] == d[i - 2];
      } else if 6 <= i {
        assert ts[i] == l[i - 6];
      }
    }
  }

  lemma TermsNonNegative(st: State, sq: Square, c: Color)
    requires Shaped(st)
    ensures NonNegative(Terms(st, sq, c))
  {
    StepsNonNegative(PawnHits(st, sq, c), KnightHits(st, sq, c), RayMasks(sq), SliderOccupancy(st, c),
                     LoopSliders(st, c, 0), LoopSliders(st, c, 1));
  }

  /** `count_attacker_on_square` reaches `bound` exactly when the square has that many attackers. */
  lemma AttackInfoBound(st: State, sq: Square, c: Color, bound: int, needSquare: bool)
    requires Shaped(st)
    ensures AttackInfo(st, sq, c, bound, needSquare).count >= bound <==> AttackerTotal(st, sq, c) >= bound
    ensures AttackerTotal(st, sq, c) < bound ==> AttackInfo(st, sq, c, bound, needSquare).count == AttackerTotal(st, sq, c)
    ensures 0 <= AttackInfo(st, sq, c, bound, needSquare).count <= AttackerTotal(st, sq, c)
  {
    TermsNonNegative(st, sq, c);
    FoldCount(Terms(st, sq, c), bound, needSquare, CheckInfo(0, -1));
    FoldNonNegative(Terms(st, sq, c), bound, needSquare, CheckInfo(0, -1));
  }

  lemma {:induction false} FoldNonNegative(ts: seq<Term>, bound: int, needSquare: bool, info: CheckInfo)
    requires NonNegative(ts) && info.count >= 0
    ensures Fold(ts, bound, needSquare, info).count >= 0
    decreases |ts|
  {
    if ts != [] {
      assert NonNegative(ts[1..]) by {
        forall i | 0 <= i < |ts[1..]| ensures ts[1..][i].count >= 0 { assert ts[1..][i] == ts[i + 1]; }
      }
      FoldNonNegative(ts[1..], bound, needSquare, AddTerm(info, ts[0], needSquare));
    }
  }

  /** Every step that adds attackers names a square on the board. */
  predicate SquaresOnBoard(ts: seq<Term>)
  {
    forall i :: 0 <= i < |ts| && ts[i].count > 0 ==> 0 <= ts[i].square < 64
  }

  lemma TermsSquaresOnBoard(st: State, sq: Square, c: Color)
    requires Shaped(st)
    ensures SquaresOnBoard(Terms(st, sq, c))
  {
    var ts := Terms(st, sq, c);
    TermsShape(st, sq, c);
    forall i | 0 <= i < 10 && ts[i].count > 0 ensures 0 <= ts[i].square < 64 {
      if 2 <= i < 6 {
        assert ts[i] == ts[2..6][i - 2];
      } else if 6 <= i {
        assert ts[i] == ts[6..][i - 6];
      }
    }
  }

  lemma {:induction false} FoldSquareOnBoard(ts: seq<Term>, bound: int, info: CheckInfo)
    requires NonNegative(ts) && SquaresOnBoard(ts) && info.count >= 0
    requires info.count > 0 ==> 0 <= info.attackerSquare < 64
    ensures var r := Fold(ts, bound, true, info);
            r.count > 0 ==> 0 <= r.attackerSquare < 64
    decreases |ts|
  {
    if ts != [] {
      assert NonNegative(ts[1..]) && SquaresOnBoard(ts[1..]) by {
        forall i | 0 <= i < |ts[1..]| ensures ts[1..][i] == ts[i + 1] { }
      }
      FoldSquareOnBoard(ts[1..], bound, AddTerm(info, ts[0], true));
    }
  }

  /**
   * When `need_square` is set and an attacker is found, the reported
   * `attacker_square` is a square of the board.
   */
  lemma AttackerSquareOnBoard(st: State, sq: Square, c: Color, bound: int)
    requires Shaped(st)
    ensures var r := AttackInfo(st, sq, c, bound, true);
            r.count > 0 ==> 0 <= r.attackerSquare < 64
  {
    TermsNonNegative(st, sq, c);
    TermsSquaresOnBoard(st, sq, c);
    FoldSquareOnBoard(Terms(st, sq, c), bound, CheckInfo(0, -1));
  }

  lemma TermsShape(st: State, sq: Square, c: Color)
    requires Shaped(st)
    ensures Terms(st, sq, c)[0] == Term(|PawnHits(st, sq, c)|, Lsb(PawnHits(st, sq, c)), true)
    ensures Terms(st, sq, c)[1] == Term(|KnightHits(st, sq, c)|, Lsb(KnightHits(st, sq, c)), true)
    ensures Terms(st, sq, c)[2..6] == RaySteps(RayMasks(sq), SliderOccupancy(st, c), LoopSliders(st, c, 0), 0)
    ensures Terms(st, sq, c)[6..] == RaySteps(RayMasks(sq), SliderOccupancy(st, c), LoopSliders(st, c, 1), 1)
  {
  }

  /** The loop that visits ray `dir`: 0 for the diagonals, 1 for the files and ranks. */
  function RayParity(dir: int): int
  {
    if Diagonal(dir) then 0 else 1
  }

  /** When that loop visits ray `dir`: `dir / 2`. */
  function RayIndex(dir: int): int
  {
    if dir < 2 then 0 else if dir < 4 then 1 else if dir < 6 then 2 else 3
  }

  /** Where ray `dir` stands among the ten steps. */
  function RayPosition(dir: int): (i: int)
    requires 0 <= dir < 8
    ensures 2 <= i < 10
  {
    2 + 4 * RayParity(dir) + RayIndex(dir)
  }

  /** The ray that step `i` looks along. */
  function StepRay(i: int): (dir: int)
    requires 2 <= i < 10
    ensures 0 <= dir < 8 && RayPosition(dir) == i
  {
    if i < 6 then 2 * (i - 2) else 2 * (i - 6) + 1
  }

  /** The step at ray `dir`'s position is its loop's step for that ray. */
  lemma LoopStep(st: State, sq: Square, c: Color, dir: int)
    requires Shaped(st) && 0 <= dir < 8
    ensures Terms(st, sq, c)[RayPosition(dir)] ==
      SliderTerm(RayMasks(sq)[dir], SliderOccupancy(st, c), LoopSliders(st, c, RayParity(dir)), dir < 4)
  {
    TermsShape(st, sq, c);
    var ts := Terms(st, sq, c);
    var j := RayIndex(dir);
    if Diagonal(dir) {
      assert dir == 2 * j;
      assert ts[2 + j] == ts[2..6][j];
    } else {
      assert dir == 2 * j + 1;
      assert ts[6 + j] == ts[6..][j];
    }
  }

  /** The loop step for ray `dir` is the hit test on that ray. */
  lemma SliderTermIsHit(st: State, sq: Square, c: Color, dir: int)
    requires Shaped(st) && 0 <= dir < 8
    ensures SliderTerm(RayMasks(sq)[dir], SliderOccupancy(st, c), LoopSliders(st, c, RayParity(dir)), dir < 4) ==
      if RayHit(st, sq, c, dir) then Term(1, RayBlocker(st, sq, c, dir), false) else Term(0, -1, false)
  {
  }

  /** The step of ray `dir` counts one attacker, at its first blocker, exactly when the ray hits. */
  lemma RayStepIsHit(st: State, sq: Square, c: Color, dir: int)
    requires Shaped(st) && 0 <= dir < 8
    ensures Terms(st, sq, c)[RayPosition(dir)] ==
      if RayHit(st, sq, c, dir) then Term(1, RayBlocker(st, sq, c, dir), false) else Term(0, -1, false)
  {
    LoopStep(st, sq, c, dir);
    SliderTermIsHit(st, sq, c, dir);
  }

  /** Some slider attacks `sq` along one of the eight rays. */
  predicate SliderHit(st: State, sq: Square, c: Color)
    requires Shaped(st)
  {
    exists dir :: 0 <= dir < 8 && RayHit(st, sq, c, dir)
  }

  lemma SliderHitIff(st: State, sq: Square, c: Color)
    requires Shaped(st)
    ensures SliderHit(st, sq, c) <==> exists i :: 2 <= i < 10 && Terms(st, sq, c)[i].count > 0
  {
    if SliderHit(st, sq, c) {
      var dir :| 0 <= dir < 8 && RayHit(st, sq, c, dir);
      SliderStepCounts(st, sq, c, dir);
    }
    if exists i :: 2 <= i < 10 && Terms(st, sq, c)[i].count > 0 {
      var i :| 2 <= i < 10 && Terms(st, sq, c)[i].count > 0;
      StepCountsSlider(st, sq, c, i);
    }
  }

  /** A hit on ray `dir` shows up as a positive step. */
  lemma SliderStepCounts(st: State, sq: Square, c: Color, dir: int)
    requires Shaped(st) && 0 <= dir < 8 && RayHit(st, sq, c, dir)
    ensures exists i :: 2 <= i < 10 && Terms(st, sq, c)[i].count > 0
  {
    RayStepIsHit(st, sq, c, dir);
    assert Terms(st, sq, c)[RayPosition(dir)].count > 0;
  }

  /** A positive ray step comes from a hit on its ray. */
  lemma StepCountsSlider(st: State, sq: Square, c: Color, i: int)
    requires Shaped(st) && 2 <= i < 10 && Terms(st, sq, c)[i].count > 0
    ensures SliderHit(st, sq, c)
  {
    var dir := StepRay(i);
    RayStepIsHit(st, sq, c, dir);
    assert RayHit(st, sq, c, dir);
  }

  /** Ten non-negative steps sum to a positive count exactly when one of them is positive. */
  lemma TenPositive(ts: seq<Term>)
    requires |ts| == 10 && NonNegative(ts)
    ensures Total(ts) >= 1 <==> ts[0].count > 0 || ts[1].count > 0 || exists i :: 2 <= i < 10 && ts[i].count > 0
  {
    TotalPositive(ts);
    if exists i :: 0 <= i < |ts| && ts[i].count > 0 {
      var i :| 0 <= i < |ts| && ts[i].count > 0;
      if i >= 2 {
        assert 2 <= i < 10 && ts[i].count > 0;
      }
    }
  }

  /**
   * Some attacker exists exactly when a pawn or knight hits the square or a
   * ray's first piece is a matching slider.
   */
  lemma AttackerTotalPositive(st: State, sq: Square, c: Color)
    requires Shaped(st)
    ensures AttackerTotal(st, sq, c) >= 1 <==>
      PawnHits(st, sq, c) != {} || KnightHits(st, sq, c) != {} || SliderHit(st, sq, c)
  {
    TermsNonNegative(st, sq, c);
    TermsShape(st, sq, c);
    TenPositive(Terms(st, sq, c));
    SliderHitIff(st, sq, c);
  }

  lemma {:induction false} TotalPositive(ts: seq<Term>)
    requires NonNegative(ts)
    ensures Total(ts) >= 1 <==> exists i :: 0 <= i < |ts| && ts[i].count > 0
    decreases |ts|
  {
    if ts != [] {
      assert NonNegative(ts[1..]) by {
        forall i | 0 <= i < |ts[1..]| ensures ts[1..][i].count >= 0 { assert ts[1..][i] == ts[i + 1]; }
      }
      TotalPositive(ts[1..]);
      TotalNonNegative(ts[1..]);
      if exists i :: 0 <= i < |ts[1..]| && ts[1..][i].count > 0 {
        var i :| 0 <= i < |ts[1..]| && ts[1..][i].count > 0;
        assert ts[i + 1].count > 0;
      }
      if exists i :: 0 <= i < |ts| && ts[i].count > 0 {
        var i :| 0 <= i < |ts| && ts[i].count > 0;
        if i > 0 {
          assert ts[1..][i - 1].count > 0;
        }
      }
    }
  }

  /** The slider rays never stop on the defending king when it is on the board. */
  lemma RayBlockerSkipsKing(st: State, sq: Square, c: Color, dir: int)
    requires Shaped(st) && 0 <= dir < 8
    requires st.pieces[BoardIndex(Opponent(c), King)] <= st.all
    ensures RayBlocker(st, sq, c, dir) == -1 || RayBlocker(st, sq, c, dir) !in st.pieces[BoardIndex(Opponent(c), King)]
  {
  }

  /**
   * `in_check`: the attackers of the mover's king, counted with bound 1 and
   * no square wanted. The king is the lowest square of its board, which the
   * source reads without a check: a side with no king is outside the model.
   */
  predicate InCheck(st: State)
    requires Shaped(st) && st.pieces[BoardIndex(st.turn, King)] != {}
  {
    AttackInfo(st, Lsb(st.pieces[BoardIndex(st.turn, King)]) as Square, Opponent(st.turn), 1, false).count >= 1
  }

  /**
   * The side to move is in check exactly when its king has an attacker: a pawn,
   * a knight or a matching slider at the end of a ray.
   */
  lemma InCheckIff(st: State)
    requires Shaped(st) && st.pieces[BoardIndex(st.turn, King)] != {}
    ensures var k := Lsb(st.pieces[BoardIndex(st.turn, King)]) as Square;
      InCheck(st) <==> AttackerTotal(st, k, Opponent(st.turn)) >= 1
  {
    var k := Lsb(st.pieces[BoardIndex(st.turn, King)]) as Square;
    AttackInfoBound(st, k, Opponent(st.turn), 1, false);
  }
}
