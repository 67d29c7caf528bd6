// The integer terms of the static evaluation (src/evaluation.cpp): pawn
// structure (doubled, isolated and passed pawns), rook activity, the bishop
// pair, the term-mask dispatch of `evaluate` and its pawn-hash cache.
module Evaluation {
  import opened Bits
  import opened Pieces
  import opened Tables
  import opened Position

  // ---------------------------------------------------------------
  // Constants (include/evaluation.h, include/constants.h)
  // ---------------------------------------------------------------

  const EVAL_MATERIAL: bv8 := 1
  const EVAL_POSITIONAL: bv8 := 2
  const EVAL_PAWN_STRUCTURE: bv8 := 4
  const EVAL_KING_SAFETY: bv8 := 8
  const EVAL_MOBILITY: bv8 := 16
  const EVAL_ROOK_ACTIVITY: bv8 := 32
  const EVAL_BISHOP_PAIR: bv8 := 64

  const PAWN_HASH_SIZE: nat := 0x1_0000

  const DOUBLED_PAWN_PENALTY: int := -17
  const ISOLATED_PAWN_PENALTY: int := -23
  const PASSED_PAWN_BONUS: seq<seq<int>> := [[0, 10, 20, 35, 50, 75, 100, 0], [0, 100, 75, 50, 35, 20, 10, 0]]

  /**
   * `BISHOP_PAIR_BONUS`, `ROOK_ON_SEVENTH_BONUS`, `OPEN_FILE_BONUS` and
   * `SEMI_OPEN_FILE_BONUS` come from a data header that is not part of this
   * model; they are parameters.
   */
  datatype Bonuses = Bonuses(bishopPair: int, rookOnSeventh: int, openFile: int, semiOpenFile: int)

  // ---------------------------------------------------------------
  // The board seen from the other side
  // ---------------------------------------------------------------

  /** `sq ^ 56`: the same file, the mirrored rank. */
  function Flip(sq: Square): (r: Square)
    ensures File(r) == File(sq) && Rank(r) == 7 - Rank(sq)
  {
    (7 - Rank(sq)) * 8 + File(sq)
  }

  lemma FlipTwice(sq: Square)
    ensures Flip(Flip(sq)) == sq
  {
  }

  /** The bitboard mirrored top to bottom. */
  function Mirror(b: Bitboard): (m: Bitboard)
  {
    set sq: Square | Flip(sq) in b
  }

  lemma MirrorMember(b: Bitboard, x: Square)
    ensures Flip(x) in Mirror(b) <==> x in b
  {
    FlipTwice(x);
  }

  /** Taking a square out of a board takes its mirror image out of the mirrored board. */
  lemma MirrorRemove(b: Bitboard, x: Square)
    requires x in b
    ensures Flip(x) in Mirror(b) && Mirror(b) - {Flip(x)} == Mirror(b - {x})
  {
    MirrorMember(b, x);
    forall y: Square
      ensures y in Mirror(b) - {Flip(x)} <==> y in Mirror(b - {x})
    {
      FlipTwice(y);
      FlipTwice(x);
    }
  }

  /** Mirroring keeps the number of squares. */
  lemma {:induction false} MirrorSize(b: Bitboard)
    ensures |Mirror(b)| == |b|
    decreases |b|
  {
    if b != {} {
      var x :| x in b;
      MirrorRemove(b, x);
      MirrorSize(b - {x});
    }
  }

  /** A file keeps its squares under mirroring, so a count on a file does too. */
  lemma MirrorOnFile(b: Bitboard, f: int)
    ensures |Mirror(b) * FileMask(f)| == |b * FileMask(f)|
    ensures Mirror(b) * FileMask(f) == {} <==> b * FileMask(f) == {}
  {
    assert Mirror(b) * FileMask(f) == Mirror(b * FileMask(f));
    MirrorSize(b * FileMask(f));
  }

  /** Rank `r` mirrors onto rank `7 - r`. */
  lemma MirrorOnRank(b: Bitboard, r: int)
    ensures |Mirror(b) * RankMask(7 - r)| == |b * RankMask(r)|
  {
    assert Mirror(b) * RankMask(7 - r) == Mirror(b * RankMask(r));
    MirrorSize(b * RankMask(r));
  }

  // ---------------------------------------------------------------
  // Sums over the squares of a bitboard
  // ---------------------------------------------------------------

  /** The sum of `f` over the squares of `b`, lowest square first, as the `get_lsb` loops add it. */
  function SumOver(b: Bitboard, f: Square -> int): int
    decreases |b|
  {
    if b == {} then 0
    else
      var l := Lsb(b) as Square;
      f(l) + SumOver(b - {l}, f)
  }

  /** The order does not matter: any square can be taken out first. */
  lemma {:induction false} SumOverRemove(b: Bitboard, f: Square -> int, x: Square)
    requires x in b
    ensures SumOver(b, f) == f(x) + SumOver(b - {x}, f)
    decreases |b|
  {
    var l := Lsb(b) as Square;
    if x != l {
      SumOverRemove(b - {l}, f, x);
      LsbRemoveOther(b, x);
      assert b - {l} - {x} == b - {x} - {l};
    }
  }

  /** Summing over the mirrored board is summing the mirrored terms over the board. */
  lemma {:induction false} SumOverMirror(b: Bitboard, f: Square -> int, g: Square -> int)
    requires forall x :: x in b ==> g(x) == f(Flip(x))
    ensures SumOver(Mirror(b), f) == SumOver(b, g)
    decreases |b|
  {
    if b == {} {
      assert Mirror(b) == {};
    } else {
      var l := Lsb(b) as Square;
      var rest := b - {l};
      assert SumOver(b, g) == g(l) + SumOver(rest, g);
      MirrorRemove(b, l);
      SumOverRemove(Mirror(b), f, Flip(l));
      assert SumOver(Mirror(b), f) == f(Flip(l)) + SumOver(Mirror(rest), f);
      SumOverMirror(rest, f, g);
    }
  }

  /** Terms that are negated pointwise sum to the negated sum. */
  lemma {:induction false} SumOverNegated(b: Bitboard, f: Square -> int, g: Square -> int)
    requires forall x :: x in b ==> g(x) == -f(x)
    ensures SumOver(b, g) == -SumOver(b, f)
    decreases |b|
  {
    if b != {} {
      var l := Lsb(b) as Square;
      SumOverNegated(b - {l}, f, g);
    }
  }

  // ---------------------------------------------------------------
  // Isolated and passed pawns
  // ---------------------------------------------------------------

  /** +1 for white, -1 for black. */
  function Weight(c: Color): int
  {
    if c == Black then -1 else 1
  }

  /**
   * The terms of one pawn of `color` on `sq`: the isolated penalty when no
   * pawn of its own stands on an adjacent file, and the passed bonus of its
   * rank when no enemy pawn stands ahead of it on its own or an adjacent file.
   */
  function PawnTerm(color: Color, my: Bitboard, op: Bitboard, sq: Square): int
  {
    var c := ColorIndex(color);
    (if my * AdjacentFileMask(File(sq)) == {} then ISOLATED_PAWN_PENALTY * Weight(color) else 0)
    + (if op * PassedPawnMask(c, sq) == {} then PASSED_PAWN_BONUS[c][Rank(sq)] * Weight(color) else 0)
  }

  function PawnTerms(color: Color, my: Bitboard, op: Bitboard): Square -> int
  {
    (sq: Square) => PawnTerm(color, my, op, sq)
  }

  /** The value `eval_iso_passed_pawns` returns. */
  function IsoPassed(color: Color, my: Bitboard, op: Bitboard): int
  {
    SumOver(my, PawnTerms(color, my, op))
  }

  /** `eval_iso_passed_pawns`: the loop over the pawns, lowest square first. */
  method EvalIsoPassedPawns(color: Color, my: Bitboard, op: Bitboard) returns (score: int)
    ensures score == IsoPassed(color, my, op)
  {
    score := 0;
    var pawns := my;
    var weight := if color == Black then -1 else 1;
    var c := ColorIndex(color);
    while pawns != {}
      invariant score + SumOver(pawns, PawnTerms(color, my, op)) == IsoPassed(color, my, op)
      decreases |pawns|
    {
      var sq := Lsb(pawns) as Square;
      if my * AdjacentFileMask(sq % 8) == {} {
        score := score + ISOLATED_PAWN_PENALTY * weight;
      }
      if op * PassedPawnMask(c, sq) == {} {
        score := score + PASSED_PAWN_BONUS[c][sq / 8] * weight;
      }
      pawns := pawns - {sq};
    }
  }

  /** The adjacent files hold a pawn of the mirrored board exactly when they hold one of the board. */
  lemma IsolatedMirror(my: Bitboard, f: int)
    requires 0 <= f < 8
    ensures Mirror(my) * AdjacentFileMask(f) == {} <==> my * AdjacentFileMask(f) == {}
  {
    if my * AdjacentFileMask(f) != {} {
      var z :| z in my * AdjacentFileMask(f);
      MirrorMember(my, z);
      AdjacentFileMaskExact(f, z);
      AdjacentFileMaskExact(f, Flip(z));
      assert Flip(z) in Mirror(my) * AdjacentFileMask(f);
    }
    if Mirror(my) * AdjacentFileMask(f) != {} {
      var z :| z in Mirror(my) * AdjacentFileMask(f);
      FlipTwice(z);
      MirrorMember(my, Flip(z));
      AdjacentFileMaskExact(f, z);
      AdjacentFileMaskExact(f, Flip(z));
      assert Flip(z) in my * AdjacentFileMask(f);
    }
  }

  /** The passed-pawn mask of the mirrored square for the other colour is the mirrored mask. */
  lemma PassedMirror(op: Bitboard, c: int, x: Square)
    requires 0 <= c < 2
    ensures Mirror(op) * PassedPawnMask(1 - c, Flip(x)) == {} <==> op * PassedPawnMask(c, x) == {}
  {
    if op * PassedPawnMask(c, x) != {} {
      var z :| z in op * PassedPawnMask(c, x);
      MirrorMember(op, z);
      PassedPawnMaskExact(c, x, z);
      PassedPawnMaskExact(1 - c, Flip(x), Flip(z));
      assert Flip(z) in Mirror(op) * PassedPawnMask(1 - c, Flip(x));
    }
    if Mirror(op) * PassedPawnMask(1 - c, Flip(x)) != {} {
      var z :| z in Mirror(op) * PassedPawnMask(1 - c, Flip(x));
      FlipTwice(z);
      MirrorMember(op, Flip(z));
      PassedPawnMaskExact(1 - c, Flip(x), z);
      PassedPawnMaskExact(c, x, Flip(z));
      assert Flip(z) in op * PassedPawnMask(c, x);
    }
  }

  /** Black's passed bonus table is white's read from the other side. */
  lemma PassedBonusMirror(c: int, r: int)
    requires 0 <= c < 2 && 0 <= r < 8
    ensures PASSED_PAWN_BONUS[1 - c][7 - r] == PASSED_PAWN_BONUS[c][r]
  {
  }

  /** A pawn of the other colour on the mirrored square, against the mirrored pawns, scores the negation. */
  lemma PawnTermMirror(color: Color, my: Bitboard, op: Bitboard, x: Square)
    ensures PawnTerm(Opponent(color), Mirror(my), Mirror(op), Flip(x)) == -PawnTerm(color, my, op, x)
  {
    var c := ColorIndex(color);
    assert ColorIndex(Opponent(color)) == 1 - c;
    IsolatedMirror(my, File(x));
    PassedMirror(op, c, x);
    PassedBonusMirror(c, Rank(x));
  }

  /** The isolated and passed terms are colour-mirrored. */
  lemma IsoPassedMirror(color: Color, my: Bitboard, op: Bitboard)
    ensures IsoPassed(Opponent(color), Mirror(my), Mirror(op)) == -IsoPassed(color, my, op)
  {
    var f := PawnTerms(Opponent(color), Mirror(my), Mirror(op));
    var g := (x: Square) => f(Flip(x));
    var h := PawnTerms(color, my, op);
    SumOverMirror(my, f, g);
    forall x | x in my
      ensures g(x) == -h(x)
    {
      PawnTermMirror(color, my, op, x);
    }
    SumOverNegated(my, h, g);
  }

  // ---------------------------------------------------------------
  // Doubled pawns and the pawn-structure score
  // ---------------------------------------------------------------

  /** The sum of per-file scores. */
  function Total(s: seq<int>): int
  {
    if s == [] then 0 else Total(s[..|s| - 1]) + s[|s| - 1]
  }

  /** Adding the next file's score to the total of the files before it. */
  lemma TotalStep(s: seq<int>, i: int)
    requires 0 <= i < |s|
    ensures Total(s[..i + 1]) == Total(s[..i]) + s[i]
  {
    assert s[..i + 1][..i] == s[..i];
  }

  /** Scores negated file by file add up to the negated total. */
  lemma {:induction false} TotalNegated(s: seq<int>, t: seq<int>)
    requires |t| == |s| && forall i :: 0 <= i < |s| ==> t[i] == -s[i]
    ensures Total(t) == -Total(s)
  {
    if s != [] {
      TotalNegated(s[..|s| - 1], t[..|t| - 1]);
    }
  }

  /** The doubled-pawn term of one colour on a file holding `n` of its pawns. */
  function DoubledOnFile(n: int): int
  {
    if n > 1 then DOUBLED_PAWN_PENALTY * (n - 1) else 0
  }

  /** The doubled-pawn score of files `0 .. f - 1`: white's penalty counts, black's is subtracted. */
  function DoubledUpTo(wp: Bitboard, bp: Bitboard, f: nat): int
    requires f <= 8
  {
    Total(DoubledByFile(wp, bp)[..f])
  }

  /** The doubled-pawn score of each file. */
  function DoubledByFile(wp: Bitboard, bp: Bitboard): (s: seq<int>)
    ensures |s| == 8
  {
    seq(8, i => DoubledOnFile(|wp * FileMask(i)|) - DoubledOnFile(|bp * FileMask(i)|))
  }

  /** The value `evaluate_pawn_structure_score` returns. */
  function PawnStructure(wp: Bitboard, bp: Bitboard): int
  {
    DoubledUpTo(wp, bp, 8) + IsoPassed(White, wp, bp) + IsoPassed(Black, bp, wp)
  }

  /** `evaluate_pawn_structure_score`: the loop over the eight files, then both colours' pawn terms. */
  method EvaluatePawnStructureScore(wp: Bitboard, bp: Bitboard) returns (score: int)
    ensures score == PawnStructure(wp, bp)
  {
    score := 0;
    var file := 0;
    while file < 8
      invariant 0 <= file <= 8
      invariant score == DoubledUpTo(wp, bp, file)
    {
      var whiteDoubled := Popcount(wp * FileMask(file));
      if whiteDoubled > 1 {
        score := score + DOUBLED_PAWN_PENALTY * (whiteDoubled - 1);
      }
      var blackDoubled := Popcount(bp * FileMask(file));
      if blackDoubled > 1 {
        score := score - DOUBLED_PAWN_PENALTY * (blackDoubled - 1);
      }
      TotalStep(DoubledByFile(wp, bp), file);
      file := file + 1;
    }
    var white := EvalIsoPassedPawns(White, wp, bp);
    var black := EvalIsoPassedPawns(Black, bp, wp);
    score := score + white + black;
  }

  /** The squares of files `0 .. f - 1`. */
  function FilesBelow(f: int): Bitboard
  {
    set sq: Square | File(sq) < f
  }

  /** The number of files among `0 .. f - 1` holding a pawn of `p`. */
  function FilesUsed(p: Bitboard, f: nat): nat
  {
    if f == 0 then 0 else FilesUsed(p, f - 1) + (if |p * FileMask(f - 1)| > 0 then 1 else 0)
  }

  /** The pawns of `p` on files `0 .. f - 1` beyond the first on each file. */
  function Stacked(p: Bitboard, f: nat): int
  {
    if f == 0 then 0 else Stacked(p, f - 1) + (if |p * FileMask(f - 1)| > 1 then |p * FileMask(f - 1)| - 1 else 0)
  }

  /** Files `0 .. f` are files `0 .. f - 1` and file `f`, which share no square. */
  lemma FilesBelowNext(p: Bitboard, f: int)
    ensures |p * FilesBelow(f + 1)| == |p * FilesBelow(f)| + |p * FileMask(f)|
  {
    assert p * FilesBelow(f + 1) == p * FilesBelow(f) + p * FileMask(f);
    assert p * FilesBelow(f) !! p * FileMask(f);
  }

  /** One more file adds its extra pawns: its pawns, less one if it has any. */
  lemma StackedStep(p: Bitboard, f: nat)
    requires 0 < f <= 8
    ensures Stacked(p, f) - Stacked(p, f - 1) == (|p * FilesBelow(f)| - |p * FilesBelow(f - 1)|) - (FilesUsed(p, f) - FilesUsed(p, f - 1))
  {
    FilesBelowNext(p, f - 1);
    var n := |p * FileMask(f - 1)|;
    assert Stacked(p, f) == Stacked(p, f - 1) + (if n > 1 then n - 1 else 0);
    assert FilesUsed(p, f) == FilesUsed(p, f - 1) + (if n > 0 then 1 else 0);
  }

  lemma {:induction false} StackedCount(p: Bitboard, f: nat)
    requires f <= 8
    ensures Stacked(p, f) == |p * FilesBelow(f)| - FilesUsed(p, f)
  {
    if f == 0 {
      assert p * FilesBelow(0) == {};
    } else {
      StackedCount(p, f - 1);
      StackedStep(p, f);
    }
  }

  /** `DoubledUpTo` is the difference of the stacked-pawn counts, scaled by the penalty. */
  lemma {:induction false} DoubledIsStacked(wp: Bitboard, bp: Bitboard, f: nat)
    requires f <= 8
    ensures DoubledUpTo(wp, bp, f) == DOUBLED_PAWN_PENALTY * (Stacked(wp, f) - Stacked(bp, f))
  {
    if f > 0 {
      DoubledIsStacked(wp, bp, f - 1);
      TotalStep(DoubledByFile(wp, bp), f - 1);
    }
  }

  /**
   * The doubled-pawn score charges 17 for every pawn beyond the first on its
   * file: to white for white pawns, to black for black ones.
   */
  lemma DoubledPawnCount(wp: Bitboard, bp: Bitboard)
    ensures DoubledUpTo(wp, bp, 8) == DOUBLED_PAWN_PENALTY * ((|wp| - FilesUsed(wp, 8)) - (|bp| - FilesUsed(bp, 8)))
  {
    DoubledIsStacked(wp, bp, 8);
    StackedCount(wp, 8);
    StackedCount(bp, 8);
    assert wp * FilesBelow(8) == wp;
    assert bp * FilesBelow(8) == bp;
  }

  lemma DoubledMirror(wp: Bitboard, bp: Bitboard)
    ensures DoubledUpTo(Mirror(bp), Mirror(wp), 8) == -DoubledUpTo(wp, bp, 8)
  {
    var s, t := DoubledByFile(wp, bp), DoubledByFile(Mirror(bp), Mirror(wp));
    forall i | 0 <= i < 8
      ensures t[i] == -s[i]
    {
      MirrorOnFile(wp, i);
      MirrorOnFile(bp, i);
    }
    assert s[..8] == s && t[..8] == t;
    TotalNegated(s, t);
  }

  /** The pawn-structure score is colour-mirrored: swapping and mirroring the pawns negates it. */
  lemma PawnStructureMirror(wp: Bitboard, bp: Bitboard)
    ensures PawnStructure(Mirror(bp), Mirror(wp)) == -PawnStructure(wp, bp)
  {
    DoubledMirror(wp, bp);
    IsoPassedMirror(White, wp, bp);
    IsoPassedMirror(Black, bp, wp);
  }

  // ---------------------------------------------------------------
  // Rook activity and the bishop pair
  // ---------------------------------------------------------------

  /**
   * The file term of `evaluate_rook_activity` on file `f`: a colour without
   * pawns there gets the open bonus per rook when the other colour has none
   * either, the semi-open bonus otherwise; black's is subtracted.
   */
  function RookFileTerm(bo: Bonuses, wp: Bitboard, bp: Bitboard, wr: Bitboard, br: Bitboard, f: int): int
  {
    var file := FileMask(f);
    var whiteHas, blackHas := wp * file != {}, bp * file != {};
    RookFileBonus(bo, whiteHas, blackHas) * |wr * file| - RookFileBonus(bo, blackHas, whiteHas) * |br * file|
  }

  /** The bonus per rook for a side with (`ownPawns`) or without pawns on the file. */
  function RookFileBonus(bo: Bonuses, ownPawns: bool, otherPawns: bool): int
  {
    if ownPawns then 0 else if otherPawns then bo.semiOpenFile else bo.openFile
  }

  function RookByFile(bo: Bonuses, wp: Bitboard, bp: Bitboard, wr: Bitboard, br: Bitboard): (s: seq<int>)
    ensures |s| == 8
  {
    seq(8, i => RookFileTerm(bo, wp, bp, wr, br, i))
  }

  function RookFilesUpTo(bo: Bonuses, wp: Bitboard, bp: Bitboard, wr: Bitboard, br: Bitboard, f: nat): int
    requires f <= 8
  {
    Total(RookByFile(bo, wp, bp, wr, br)[..f])
  }

  /** The value `evaluate_rook_activity` returns. */
  function RookActivity(bo: Bonuses, wp: Bitboard, bp: Bitboard, wr: Bitboard, br: Bitboard): int
  {
    |wr * RankMask(6)| * bo.rookOnSeventh - |br * RankMask(1)| * bo.rookOnSeventh + RookFilesUpTo(bo, wp, bp, wr, br, 8)
  }

  /** `evaluate_rook_activity`: the seventh-rank counts, then the loop over `FILE_MASK`. */
  method EvaluateRookActivity(bo: Bonuses, wp: Bitboard, bp: Bitboard, wr: Bitboard, br: Bitboard)
    returns (score: int)
    ensures score == RookActivity(bo, wp, bp, wr, br)
  {
    score := Popcount(wr * RankMask(6)) * bo.rookOnSeventh;
    score := score - Popcount(br * RankMask(1)) * bo.rookOnSeventh;
    var f := 0;
    while f < 8
      invariant 0 <= f <= 8
      invariant score == |wr * RankMask(6)| * bo.rookOnSeventh - |br * RankMask(1)| * bo.rookOnSeventh
                         + RookFilesUpTo(bo, wp, bp, wr, br, f)
    {
      var file := FileMask(f);
      var whiteHasPawns := wp * file != {};
      var blackHasPawns := bp * file != {};
      if !whiteHasPawns {
        var whiteRooksOnFile := Popcount(wr * file);
        if !blackHasPawns {
          score := score + bo.openFile * whiteRooksOnFile;
        } else {
          score := score + bo.semiOpenFile * whiteRooksOnFile;
        }
      }
      if !blackHasPawns {
        var blackRooksOnFile := Popcount(br * file);
        if !whiteHasPawns {
          score := score - bo.openFile * blackRooksOnFile;
        } else {
          score := score - bo.semiOpenFile * blackRooksOnFile;
        }
      }
      TotalStep(RookByFile(bo, wp, bp, wr, br), f);
      f := f + 1;
    }
  }

  lemma RookFileTermMirror(bo: Bonuses, wp: Bitboard, bp: Bitboard, wr: Bitboard, br: Bitboard, f: int)
    ensures RookFileTerm(bo, Mirror(bp), Mirror(wp), Mirror(br), Mirror(wr), f) == -RookFileTerm(bo, wp, bp, wr, br, f)
  {
    MirrorOnFile(wp, f);
    MirrorOnFile(bp, f);
    MirrorOnFile(wr, f);
    MirrorOnFile(br, f);
  }

  lemma RookFilesMirror(bo: Bonuses, wp: Bitboard, bp: Bitboard, wr: Bitboard, br: Bitboard)
    ensures RookFilesUpTo(bo, Mirror(bp), Mirror(wp), Mirror(br), Mirror(wr), 8) == -RookFilesUpTo(bo, wp, bp, wr, br, 8)
  {
    var s, t := RookByFile(bo, wp, bp, wr, br), RookByFile(bo, Mirror(bp), Mirror(wp), Mirror(br), Mirror(wr));
    forall i | 0 <= i < 8
      ensures t[i] == -s[i]
    {
      RookFileTermMirror(bo, wp, bp, wr, br, i);
    }
    assert s[..8] == s && t[..8] == t;
    TotalNegated(s, t);
  }

  /** Rook activity is colour-mirrored: swapping and mirroring pawns and rooks negates it. */
  lemma RookActivityMirror(bo: Bonuses, wp: Bitboard, bp: Bitboard, wr: Bitboard, br: Bitboard)
    ensures RookActivity(bo, Mirror(bp), Mirror(wp), Mirror(br), Mirror(wr)) == -RookActivity(bo, wp, bp, wr, br)
  {
    RookFilesMirror(bo, wp, bp, wr, br);
    MirrorOnRank(br, 1);
    MirrorOnRank(wr, 6);
  }

  /** A file on which both colours have pawns adds nothing for rooks. */
  lemma ClosedFileNeutral(bo: Bonuses, wp: Bitboard, bp: Bitboard, wr: Bitboard, br: Bitboard, f: int)
    requires wp * FileMask(f) != {} && bp * FileMask(f) != {}
    ensures RookFileTerm(bo, wp, bp, wr, br, f) == 0
  {
  }

  /** `evaluate_bishop_pair`. */
  function BishopPair(bo: Bonuses, wb: Bitboard, bb: Bitboard): (r: int)
    ensures (|wb| >= 2) == (|bb| >= 2) ==> r == 0
    ensures |wb| >= 2 && |bb| < 2 ==> r == bo.bishopPair
    ensures |wb| < 2 && |bb| >= 2 ==> r == -bo.bishopPair
  {
    (if Popcount(wb) >= 2 then bo.bishopPair else 0) - (if Popcount(bb) >= 2 then bo.bishopPair else 0)
  }

  // ---------------------------------------------------------------
  // evaluate: the term mask and the pawn-hash cache
  // ---------------------------------------------------------------

  /** The tapered king safety: `(mg * phase + eg * (24 - phase)) / 24`. */
  function Taper(mg: int, eg: int, phase: int): int
  {
    TruncDiv(mg * phase + eg * (24 - phase), 24)
  }

  /**
   * What `evaluate` reads through board code that is not part of this model:
   * the positional score already divided by 24, the game phase, the pawn key,
   * the two king-safety scores `eval_king_safety_score` would compute, and the
   * mobility score.
   */
  datatype Inputs = Inputs(positional: int, phase: int, pawnKey: nat, mgKingSafety: int, egKingSafety: int,
                           mobility: int)

  /** `PawnEvalEntry`. */
  datatype PawnEntry = PawnEntry(key: nat, pawnStructure: int, mgKingSafety: int, egKingSafety: int, valid: bool)

  /** The zero-initialised entry of the static table. */
  const EMPTY_PAWN_ENTRY: PawnEntry := PawnEntry(0, 0, 0, 0, false)

  /** `pawn_key & (PAWN_HASH_SIZE - 1)`. */
  function Slot(key: nat): (i: nat)
    ensures i < PAWN_HASH_SIZE
  {
    key % PAWN_HASH_SIZE
  }

  function Pawns(st: State, c: Color): Bitboard
    requires Shaped(st)
  {
    st.pieces[BoardIndex(c, Pawn)]
  }

  /** The entry for the pawn key: the cached one on a hit, the freshly computed one on a miss. */
  function PawnLookup(e: PawnEntry, wp: Bitboard, bp: Bitboard, inp: Inputs): (r: PawnEntry)
    ensures r.valid && r.key == inp.pawnKey
  {
    if e.valid && e.key == inp.pawnKey then e
    else PawnEntry(inp.pawnKey, PawnStructure(wp, bp), inp.mgKingSafety, inp.egKingSafety, true)
  }

  predicate Has(mask: bv8, term: bv8)
  {
    mask & term != 0
  }

  /** A term's value when its bit is in the mask, 0 otherwise. */
  function Masked(mask: bv8, term: bv8, v: int): int
  {
    if Has(mask, term) then v else 0
  }

  /** The score `evaluate` returns, given the pawn entry it used. */
  function Score(mask: bv8, st: State, inp: Inputs, bo: Bonuses, pe: PawnEntry): int
    requires Shaped(st)
  {
    Masked(mask, EVAL_MATERIAL, st.material)
    + Masked(mask, EVAL_POSITIONAL, inp.positional)
    + Masked(mask, EVAL_PAWN_STRUCTURE | EVAL_KING_SAFETY, CachedTerms(mask, pe, inp.phase))
    + LaterTerms(mask, st, inp, bo)
  }

  /** The pawn-structure and king-safety terms, read from the pawn entry. */
  function CachedTerms(mask: bv8, pe: PawnEntry, phase: int): int
  {
    Masked(mask, EVAL_PAWN_STRUCTURE, pe.pawnStructure)
    + Masked(mask, EVAL_KING_SAFETY, Taper(pe.mgKingSafety, pe.egKingSafety, phase))
  }

  /** The mobility, rook-activity and bishop-pair terms. */
  function LaterTerms(mask: bv8, st: State, inp: Inputs, bo: Bonuses): int
    requires Shaped(st)
  {
    var wp, bp := Pawns(st, White), Pawns(st, Black);
    var wr, br := st.pieces[BoardIndex(White, Rook)], st.pieces[BoardIndex(Black, Rook)];
    var wb, bb := st.pieces[BoardIndex(White, Bishop)], st.pieces[BoardIndex(Black, Bishop)];
    Masked(mask, EVAL_MOBILITY, inp.mobility)
    + Masked(mask, EVAL_ROOK_ACTIVITY, RookActivity(bo, wp, bp, wr, br))
    + Masked(mask, EVAL_BISHOP_PAIR, BishopPair(bo, wb, bb))
  }

  /**
   * One call of `evaluate(board, terms_mask)` on the cache contents `table`:
   * the score, and the cache afterwards. Only a mask with the pawn-structure
   * or king-safety bit probes the cache, and only a miss writes its slot.
   */
  function Evaluation(table: seq<PawnEntry>, mask: bv8, st: State, inp: Inputs, bo: Bonuses): (r: (int, seq<PawnEntry>))
    requires Shaped(st) && |table| == PAWN_HASH_SIZE
    ensures |r.1| == PAWN_HASH_SIZE
  {
    (Score(mask, st, inp, bo, EntryUsed(table, mask, st, inp)), TableAfter(table, mask, st, inp))
  }

  /** The pawn entry `evaluate` reads its cached terms from. */
  function EntryUsed(table: seq<PawnEntry>, mask: bv8, st: State, inp: Inputs): PawnEntry
    requires Shaped(st) && |table| == PAWN_HASH_SIZE
  {
    if Has(mask, EVAL_PAWN_STRUCTURE | EVAL_KING_SAFETY) then
      PawnLookup(table[Slot(inp.pawnKey)], Pawns(st, White), Pawns(st, Black), inp)
    else EMPTY_PAWN_ENTRY
  }

  /** The cache after `evaluate`: the probed slot holds the entry used. */
  function TableAfter(table: seq<PawnEntry>, mask: bv8, st: State, inp: Inputs): (t: seq<PawnEntry>)
    requires Shaped(st) && |table| == PAWN_HASH_SIZE
    ensures |t| == PAWN_HASH_SIZE
  {
    if Has(mask, EVAL_PAWN_STRUCTURE | EVAL_KING_SAFETY) then
      table[Slot(inp.pawnKey) := EntryUsed(table, mask, st, inp)]
    else table
  }

  /** `pawn_evaluation_table`, with `evaluate` as the method that reads and fills it. */
  class PawnCache {
    var entries: array<PawnEntry>

    ghost predicate Valid()
      reads this
    {
      entries.Length == PAWN_HASH_SIZE
    }

    /** The table starts zero-initialised: no entry is valid. */
    constructor ()
      ensures Valid() && fresh(entries)
      ensures forall i :: 0 <= i < entries.Length ==> entries[i] == EMPTY_PAWN_ENTRY
    {
      entries := new PawnEntry[PAWN_HASH_SIZE](_ => EMPTY_PAWN_ENTRY);
    }

    /**
     * The pawn-hash probe of `evaluate`: a hit returns the cached scores, a
     * miss computes them and stores them in the key's slot.
     */
    method ProbePawnCache(wp: Bitboard, bp: Bitboard, inp: Inputs) returns (pawnStructure: int, kingSafety: int)
      requires Valid()
      modifies entries
      ensures Valid()
      ensures var pe := PawnLookup(old(entries[Slot(inp.pawnKey)]), wp, bp, inp);
              && entries[..] == old(entries[..])[Slot(inp.pawnKey) := pe]
              && pawnStructure == pe.pawnStructure
              && kingSafety == Taper(pe.mgKingSafety, pe.egKingSafety, inp.phase)
    {
      var idx := inp.pawnKey % PAWN_HASH_SIZE;
      var entry := entries[idx];
      if entry.valid && entry.key == inp.pawnKey {
        pawnStructure := entry.pawnStructure;
        kingSafety := Taper(entry.mgKingSafety, entry.egKingSafety, inp.phase);
        assert entries[..] == entries[..][idx := entry];
      } else {
        pawnStructure := EvaluatePawnStructureScore(wp, bp);
        var computed := PawnEntry(inp.pawnKey, pawnStructure, inp.mgKingSafety, inp.egKingSafety, true);
        assert computed == PawnLookup(entry, wp, bp, inp);
        entries[idx] := computed;
        kingSafety := Taper(inp.mgKingSafety, inp.egKingSafety, inp.phase);
      }
    }

    /** `evaluate(board, terms_mask)`: each term whose bit is set in the mask, added up. */
    method Evaluate(mask: bv8, st: State, inp: Inputs, bo: Bonuses) returns (score: int)
      requires Valid() && Shaped(st)
      modifies entries
      ensures Valid()
      ensures (score, entries[..]) == Evaluation(old(entries[..]), mask, st, inp, bo)
    {
      score := 0;
      if mask & EVAL_MATERIAL != 0 {
        score := score + st.material;
      }
      if mask & EVAL_POSITIONAL != 0 {
        score := score + inp.positional;
      }
      ghost var pe := EMPTY_PAWN_ENTRY;
      if mask & (EVAL_PAWN_STRUCTURE | EVAL_KING_SAFETY) != 0 {
        var wp, bp := st.pieces[BoardIndex(White, Pawn)], st.pieces[BoardIndex(Black, Pawn)];
        pe := PawnLookup(entries[Slot(inp.pawnKey)], wp, bp, inp);
        var pawnStructScore, kingSafetyScore := ProbePawnCache(wp, bp, inp);
        if mask & EVAL_PAWN_STRUCTURE != 0 {
          score := score + pawnStructScore;
        }
        if mask & EVAL_KING_SAFETY != 0 {
          score := score + kingSafetyScore;
        }
      }
      assert pe == EntryUsed(old(entries[..]), mask, st, inp);
      assert entries[..] == TableAfter(old(entries[..]), mask, st, inp);
      assert score == Masked(mask, EVAL_MATERIAL, st.material) + Masked(mask, EVAL_POSITIONAL, inp.positional)
                      + Masked(mask, EVAL_PAWN_STRUCTURE | EVAL_KING_SAFETY, CachedTerms(mask, pe, inp.phase));
      var later := EvaluateLaterTerms(mask, st, inp, bo);
      score := score + later;
      assert score == Score(mask, st, inp, bo, pe);
    }
  }

  /** The mobility, rook-activity and bishop-pair steps of `evaluate`. */
  method EvaluateLaterTerms(mask: bv8, st: State, inp: Inputs, bo: Bonuses) returns (score: int)
    requires Shaped(st)
    ensures score == LaterTerms(mask, st, inp, bo)
  {
    score := 0;
    if mask & EVAL_MOBILITY != 0 {
      score := score + inp.mobility;
    }
    if mask & EVAL_ROOK_ACTIVITY != 0 {
      var rooks := EvaluateRookActivity(bo, st.pieces[BoardIndex(White, Pawn)], st.pieces[BoardIndex(Black, Pawn)],
                                        st.pieces[BoardIndex(White, Rook)], st.pieces[BoardIndex(Black, Rook)]);
      score := score + rooks;
    }
    if mask & EVAL_BISHOP_PAIR != 0 {
      score := score + BishopPair(bo, st.pieces[BoardIndex(White, Bishop)], st.pieces[BoardIndex(Black, Bishop)]);
    }
  }

  // ---------------------------------------------------------------
  // Properties of evaluate
  // ---------------------------------------------------------------

  /** Every term is guarded by its bit: the empty mask scores 0 and leaves the cache alone. */
  lemma EmptyMaskScoresZero(table: seq<PawnEntry>, st: State, inp: Inputs, bo: Bonuses)
    requires Shaped(st) && |table| == PAWN_HASH_SIZE
    ensures Evaluation(table, 0, st, inp, bo) == (0, table)
  {
  }

  /**
   * The cache is touched only for the pawn-structure and king-safety terms;
   * then its one slot for the key holds a valid entry for that key, and no
   * other slot changes.
   */
  lemma CacheWritesOneSlot(table: seq<PawnEntry>, mask: bv8, st: State, inp: Inputs, bo: Bonuses)
    requires Shaped(st) && |table| == PAWN_HASH_SIZE
    ensures var after := Evaluation(table, mask, st, inp, bo).1;
            && (!Has(mask, EVAL_PAWN_STRUCTURE | EVAL_KING_SAFETY) ==> after == table)
            && (Has(mask, EVAL_PAWN_STRUCTURE | EVAL_KING_SAFETY) ==>
                  && after[Slot(inp.pawnKey)].valid && after[Slot(inp.pawnKey)].key == inp.pawnKey
                  && forall i :: 0 <= i < PAWN_HASH_SIZE && i != Slot(inp.pawnKey) ==> after[i] == table[i])
  {
  }

  /** Evaluating again with the cache the first call left gives the same score and cache. */
  lemma EvaluationRepeats(table: seq<PawnEntry>, mask: bv8, st: State, inp: Inputs, bo: Bonuses)
    requires Shaped(st) && |table| == PAWN_HASH_SIZE
    ensures var first := Evaluation(table, mask, st, inp, bo);
            Evaluation(first.1, mask, st, inp, bo) == first
  {
    if Has(mask, EVAL_PAWN_STRUCTURE | EVAL_KING_SAFETY) {
      var slot := Slot(inp.pawnKey);
      var pe := PawnLookup(table[slot], Pawns(st, White), Pawns(st, Black), inp);
      var after := table[slot := pe];
      assert after[slot] == pe;
      assert after[slot := pe] == after;
    }
  }

  /**
   * A cache entry that holds this board's pawn-structure and king-safety
   * scores gives the score of an evaluation with an empty cache.
   */
  lemma ConsistentCacheAgrees(table: seq<PawnEntry>, mask: bv8, st: State, inp: Inputs, bo: Bonuses)
    requires Shaped(st) && |table| == PAWN_HASH_SIZE
    requires var e := table[Slot(inp.pawnKey)];
             e.valid && e.key == inp.pawnKey ==>
               && e.pawnStructure == PawnStructure(Pawns(st, White), Pawns(st, Black))
               && e.mgKingSafety == inp.mgKingSafety && e.egKingSafety == inp.egKingSafety
    ensures Evaluation(table, mask, st, inp, bo).0
            == Evaluation(seq(PAWN_HASH_SIZE, _ => EMPTY_PAWN_ENTRY), mask, st, inp, bo).0
  {
  }
}
