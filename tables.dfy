// The precomputed tables of src/generator.cpp: the loops of `main` that fill
// the attack, line, ray and mask tables, and the rook blocker-mask helpers.
// Each loop is a method whose result is tied to a specification function;
// the lemmas give the tables their geometric meaning.
module Tables {
  import opened Bits

  const KNIGHT_DIRECTIONS: seq<int> := [6, 15, 17, 10, -6, -17, -15, -10]
  const KING_DIRECTIONS: seq<int> := [7, 8, 9, 1, -7, -8, -9, -1]

  /**
   * The eight ray directions, indexed as in the engine: an even index is a
   * diagonal, an odd index a rank or file; indices 0..3 increase the square
   * index and 4..7 decrease it.
   */
  const DIRECTIONS: seq<int> := [7, 8, 9, 1, -7, -8, -9, -1]

  // ---------------------------------------------------------------
  // Step tables (knight and king attacks)
  // ---------------------------------------------------------------

  /** The target of one step if it is on the board and at most `maxFileDiff` files away. */
  function StepTarget(sq: Square, d: int, maxFileDiff: int): Bitboard
  {
    if 0 <= sq + d < 64 && Abs((sq + d) % 8 - sq % 8) <= maxFileDiff
    then var t: Square := sq + d; {t}
    else {}
  }

  /** The union of the step targets of `dirs`, in loop order. */
  function StepTargets(sq: Square, dirs: seq<int>, maxFileDiff: int): Bitboard
    decreases |dirs|
  {
    if dirs == [] then {}
    else StepTargets(sq, dirs[..|dirs| - 1], maxFileDiff) + StepTarget(sq, dirs[|dirs| - 1], maxFileDiff)
  }

  lemma {:induction false} StepTargetsMember(sq: Square, dirs: seq<int>, maxFileDiff: int, t: Square)
    ensures t in StepTargets(sq, dirs, maxFileDiff)
        <==> t - sq in dirs && Abs(File(t) - File(sq)) <= maxFileDiff
    decreases |dirs|
  {
    if dirs != [] {
      var init := dirs[..|dirs| - 1];
      StepTargetsMember(sq, init, maxFileDiff, t);
      assert dirs == init + [dirs[|dirs| - 1]];
    }
  }

  function KnightAttacks(sq: Square): Bitboard { StepTargets(sq, KNIGHT_DIRECTIONS, 2) }
  function KingAttacks(sq: Square): Bitboard { StepTargets(sq, KING_DIRECTIONS, 1) }

  /**
   * The knight and king loops: for every square, every direction whose
   * target is on the board and close enough in files sets that bit.
   */
  method BuildStepTable(dirs: seq<int>, maxFileDiff: int) returns (table: array<Bitboard>)
    ensures fresh(table) && table.Length == 64
    ensures forall sq: Square :: table[sq] == StepTargets(sq, dirs, maxFileDiff)
  {
    table := new Bitboard[64](_ => {});
    var square := 0;
    while square < 64
      invariant 0 <= square <= 64
      invariant forall s: Square :: s < square ==> table[s] == StepTargets(s, dirs, maxFileDiff)
      invariant forall s: Square :: s >= square ==> table[s] == {}
    {
      var k := 0;
      while k < |dirs|
        invariant 0 <= k <= |dirs|
        invariant table[square] == StepTargets(square, dirs[..k], maxFileDiff)
        invariant forall s: Square :: s < square ==> table[s] == StepTargets(s, dirs, maxFileDiff)
        invariant forall s: Square :: s > square ==> table[s] == {}
      {
        var target := square + dirs[k];
        if target >= 0 && target < 64 {
          if Abs(target % 8 - square % 8) <= maxFileDiff {
            table[square] := table[square] + {target};
          }
        }
        assert dirs[..k + 1][..k] == dirs[..k];
        k := k + 1;
      }
      assert dirs[..|dirs|] == dirs;
      square := square + 1;
    }
  }

  predicate KnightStep(a: Square, b: Square)
  {
    var dr := Abs(Rank(b) - Rank(a));
    var df := Abs(File(b) - File(a));
    (dr == 1 && df == 2) || (dr == 2 && df == 1)
  }

  /** `knight_attacks[sq]` holds exactly the squares a knight's jump away: no wrap-around. */
  lemma KnightAttacksExact(sq: Square, t: Square)
    ensures t in KnightAttacks(sq) <==> KnightStep(sq, t)
    ensures t in KnightAttacks(sq) ==> Abs(File(t) - File(sq)) <= 2
  {
    StepTargetsMember(sq, KNIGHT_DIRECTIONS, 2, t);
    assert t - sq == 8 * (Rank(t) - Rank(sq)) + (File(t) - File(sq));
  }

  /** `king_attacks[sq]` holds exactly the squares at king distance 1. */
  lemma KingAttacksExact(sq: Square, t: Square)
    ensures t in KingAttacks(sq) <==> Chebyshev(sq, t) == 1
    ensures t in KingAttacks(sq) ==> Abs(File(t) - File(sq)) <= 1
  {
    StepTargetsMember(sq, KING_DIRECTIONS, 1, t);
    assert t - sq == 8 * (Rank(t) - Rank(sq)) + (File(t) - File(sq));
  }

  // ---------------------------------------------------------------
  // Pawn attacks
  // ---------------------------------------------------------------

  /** `pawn_attacks[color][sq]`, colour 0 white and 1 black, as the loop computes it. */
  function PawnAttacks(color: int, sq: Square): Bitboard
    requires 0 <= color < 2
  {
    if color == 0 then
      (if sq % 8 > 0 && sq + 7 < 64 then {sq + 7} else {})
      + (if sq % 8 < 7 && sq + 9 < 64 then {sq + 9} else {})
    else
      (if sq % 8 > 0 && sq - 9 >= 0 then {sq - 9} else {})
      + (if sq % 8 < 7 && sq - 7 > 0 then {sq - 7} else {})
  }

  method BuildPawnAttacks() returns (table: array2<Bitboard>)
    ensures fresh(table) && table.Length0 == 2 && table.Length1 == 64
    ensures forall c, sq: Square :: 0 <= c < 2 ==> table[c, sq] == PawnAttacks(c, sq)
  {
    table := new Bitboard[2, 64]((_, _) => {});
    var square := 0;
    while square < 64
      invariant 0 <= square <= 64
      invariant forall c, s: Square :: 0 <= c < 2 && s < square ==> table[c, s] == PawnAttacks(c, s)
    {
      var white: Bitboard := {};
      if square % 8 > 0 {
        if square + 7 < 64 { white := white + {square + 7}; }
      }
      if square % 8 < 7 {
        if square + 9 < 64 { white := white + {square + 9}; }
      }
      table[0, square] := white;
      var black: Bitboard := {};
      if square % 8 > 0 {
        if square - 9 >= 0 { black := black + {square - 9}; }
      }
      if square % 8 < 7 {
        if square - 7 > 0 { black := black + {square - 7}; }
      }
      table[0, square] := white;
      table[1, square] := black;
      square := square + 1;
    }
  }

  /** A pawn attacks the two diagonal squares one rank ahead of it, and nothing past an edge. */
  lemma PawnAttacksExact(color: int, sq: Square, t: Square)
    requires 0 <= color < 2
    ensures t in PawnAttacks(color, sq)
        <==> Rank(t) == Rank(sq) + (if color == 0 then 1 else -1) && Abs(File(t) - File(sq)) == 1
  {
    assert t - sq == 8 * (Rank(t) - Rank(sq)) + (File(t) - File(sq));
  }

  // ---------------------------------------------------------------
  // LINE_BETWEEN
  // ---------------------------------------------------------------

  /** Same rank, same file or same diagonal. */
  predicate Aligned(a: Square, b: Square)
  {
    Rank(a) == Rank(b) || File(a) == File(b) || Abs(Rank(a) - Rank(b)) == Abs(File(a) - File(b))
  }

  /** `(x > 0) - (x < 0)`. */
  function Sign(x: int): int { if x > 0 then 1 else if x < 0 then -1 else 0 }

  /** `j * s` for a step component `s` in -1..1. */
  function Scale(j: int, s: int): int { if s == 1 then j else if s == -1 then -j else 0 }

  /** The square reached after `j` steps from `a` towards an aligned `b`. */
  function Waypoint(a: Square, b: Square, j: int): Square
    requires Aligned(a, b) && 0 <= j <= Chebyshev(a, b)
  {
    (Rank(a) + Scale(j, Sign(Rank(b) - Rank(a)))) * 8 + File(a) + Scale(j, Sign(File(b) - File(a)))
  }

  /** The waypoint moves `j` steps along each axis. */
  lemma WaypointCoords(a: Square, b: Square, j: int)
    requires Aligned(a, b) && 0 <= j <= Chebyshev(a, b)
    ensures Rank(Waypoint(a, b, j)) == Rank(a) + Scale(j, Sign(Rank(b) - Rank(a)))
    ensures File(Waypoint(a, b, j)) == File(a) + Scale(j, Sign(File(b) - File(a)))
  {
    SquareAt(Rank(a) + Scale(j, Sign(Rank(b) - Rank(a))), File(a) + Scale(j, Sign(File(b) - File(a))));
  }

  /** The first `j` squares of the walk from `a` to `b`. */
  function LineUpTo(a: Square, b: Square, j: int): Bitboard
    requires Aligned(a, b) && 0 <= j <= Chebyshev(a, b) + 1
    decreases j
  {
    if j == 0 then {} else LineUpTo(a, b, j - 1) + {Waypoint(a, b, j - 1)}
  }

  /** `line_between[a][b]`: the walk from `a` to `b`, both ends included, or empty. */
  function LineBetween(a: Square, b: Square): Bitboard
  {
    if Aligned(a, b) then LineUpTo(a, b, Chebyshev(a, b) + 1) else {}
  }

  lemma WaypointFacts(a: Square, b: Square, j: int)
    requires Aligned(a, b) && 0 <= j <= Chebyshev(a, b)
    ensures j == 0 ==> Waypoint(a, b, j) == a
    ensures Waypoint(a, b, j) == b <==> j == Chebyshev(a, b)
    ensures j < Chebyshev(a, b) ==>
              Waypoint(a, b, j + 1) == Waypoint(a, b, j) + Sign(Rank(b) - Rank(a)) * 8 + Sign(File(b) - File(a))
  {
    WaypointCoords(a, b, j);
  }

  /** The body of the `line_between` loop for one pair of squares. */
  method WalkLine(from: Square, to: Square) returns (line: Bitboard)
    ensures line == LineBetween(from, to)
  {
    var r1, f1 := from / 8, from % 8;
    var r2, f2 := to / 8, to % 8;
    line := {};
    if r1 == r2 || f1 == f2 || Abs(r1 - r2) == Abs(f1 - f2) {
      var rankStep := (if r2 > r1 then 1 else 0) - (if r2 < r1 then 1 else 0);
      var fileStep := (if f2 > f1 then 1 else 0) - (if f2 < f1 then 1 else 0);
      var step := rankStep * 8 + fileStep;
      line := WalkSteps(from, to, step);
    }
  }

  /** The walk from `from` to an aligned `to`, one `step` at a time, both ends included. */
  method WalkSteps(from: Square, to: Square, step: int) returns (line: Bitboard)
    requires Aligned(from, to) && step == Sign(Rank(to) - Rank(from)) * 8 + Sign(File(to) - File(from))
    ensures line == LineBetween(from, to)
  {
    line := {};
    var current: int := from;
    ghost var j := 0;
    WaypointFacts(from, to, 0);
    while current != to
      invariant 0 <= j <= Chebyshev(from, to)
      invariant current == Waypoint(from, to, j)
      invariant line == LineUpTo(from, to, j)
      decreases Chebyshev(from, to) - j
    {
      WalkAdvance(from, to, j, step);
      line := line + {current};
      current := current + step;
      j := j + 1;
    }
    WalkEnd(from, to, j);
    line := line + {to};
  }

  /** One step of the walk: the next square and one more square on the line. */
  lemma WalkAdvance(a: Square, b: Square, j: int, step: int)
    requires Aligned(a, b) && step == Sign(Rank(b) - Rank(a)) * 8 + Sign(File(b) - File(a))
    requires 0 <= j <= Chebyshev(a, b) && Waypoint(a, b, j) != b
    ensures j < Chebyshev(a, b) && Waypoint(a, b, j) + step == Waypoint(a, b, j + 1)
    ensures LineUpTo(a, b, j + 1) == LineUpTo(a, b, j) + {Waypoint(a, b, j)}
  {
    WaypointFacts(a, b, j);
  }

  /** The walk stops at `b` after `Chebyshev(a, b)` steps, `b` being the last square added. */
  lemma WalkEnd(a: Square, b: Square, j: int)
    requires Aligned(a, b) && 0 <= j <= Chebyshev(a, b) && Waypoint(a, b, j) == b
    ensures LineUpTo(a, b, j) + {b} == LineBetween(a, b)
  {
    WaypointFacts(a, b, j);
  }

  method BuildLineBetween() returns (table: array2<Bitboard>)
    ensures fresh(table) && table.Length0 == 64 && table.Length1 == 64
    ensures forall a: Square, b: Square :: table[a, b] == LineBetween(a, b)
  {
    table := new Bitboard[64, 64]((_, _) => {});
    var from := 0;
    while from < 64
      invariant 0 <= from <= 64
      invariant forall a: Square, b: Square :: a < from ==> table[a, b] == LineBetween(a, b)
    {
      var to := 0;
      while to < 64
        invariant 0 <= to <= 64
        invariant forall a: Square, b: Square :: a < from ==> table[a, b] == LineBetween(a, b)
        invariant forall b: Square :: b < to ==> table[from, b] == LineBetween(from, b)
      {
        var line := WalkLine(from, to);
        table[from, to] := line;
        to := to + 1;
      }
      from := from + 1;
    }
  }

  lemma {:induction false} LineUpToMember(a: Square, b: Square, j: int, t: Square)
    requires Aligned(a, b) && 0 <= j <= Chebyshev(a, b) + 1
    ensures t in LineUpTo(a, b, j) <==> exists i :: 0 <= i < j && t == Waypoint(a, b, i)
    decreases j
  {
    if j > 0 {
      LineUpToMember(a, b, j - 1, t);
      var w := Waypoint(a, b, j - 1);
      assert LineUpTo(a, b, j) == LineUpTo(a, b, j - 1) + {w};
      if t in LineUpTo(a, b, j - 1) {
        var i :| 0 <= i < j - 1 && t == Waypoint(a, b, i);
        assert 0 <= i < j;
      } else if t == w {
        assert 0 <= j - 1 < j && t == Waypoint(a, b, j - 1);
      } else {
        forall i | 0 <= i < j ensures t != Waypoint(a, b, i) {
          if i < j - 1 {
          } else {
            assert i == j - 1;
          }
        }
      }
    }
  }

  /**
   * For aligned squares the line holds both ends and every square stepped
   * over in between, and nothing else; for others it is empty; the line from
   * a square to itself is that square alone.
   */
  lemma LineBetweenShape(a: Square, b: Square)
    ensures !Aligned(a, b) ==> LineBetween(a, b) == {}
    ensures Aligned(a, b) ==> a in LineBetween(a, b) && b in LineBetween(a, b)
    ensures Aligned(a, b) ==> forall t: Square :: t in LineBetween(a, b) <==>
              exists i :: 0 <= i <= Chebyshev(a, b) && t == Waypoint(a, b, i)
    ensures LineBetween(a, a) == {a}
  {
    if Aligned(a, b) {
      var n := Chebyshev(a, b);
      forall t: Square ensures t in LineBetween(a, b) <==> exists i :: 0 <= i <= n && t == Waypoint(a, b, i) {
        LineUpToMember(a, b, n + 1, t);
      }
      WaypointFacts(a, b, 0);
      WaypointFacts(a, b, n);
    }
    forall t: Square ensures t in LineBetween(a, a) <==> t == a {
      LineUpToMember(a, a, 1, t);
    }
  }

  // ---------------------------------------------------------------
  // RAY_MASK
  // ---------------------------------------------------------------

  /** The rest of a ray whose next square is `t`; the loop stops off the board or on a wrap. */
  function RayFrom(t: int, dir: int): Bitboard
    requires dir in DIRECTIONS && 0 <= t - dir < 64
    decreases if dir > 0 then 64 - t else t
  {
    if !(0 <= t < 64) || Abs(t % 8 - (t - dir) % 8) > 1 then {}
    else {t as Square} + RayFrom(t + dir, dir)
  }

  /** `ray_mask[dirIndex][sq]`. */
  function RayMask(dirIndex: int, sq: Square): Bitboard
    requires 0 <= dirIndex < 8
  {
    RayFrom(sq + DIRECTIONS[dirIndex], DIRECTIONS[dirIndex])
  }

  method BuildRayMask() returns (table: array2<Bitboard>)
    ensures fresh(table) && table.Length0 == 8 && table.Length1 == 64
    ensures forall d, sq: Square :: 0 <= d < 8 ==> table[d, sq] == RayMask(d, sq)
  {
    table := new Bitboard[8, 64]((_, _) => {});
    var square := 0;
    while square < 64
      invariant 0 <= square <= 64
      invariant forall d, s: Square :: 0 <= d < 8 && s < square ==> table[d, s] == RayMask(d, s)
    {
      var dirIndex := 0;
      while dirIndex < 8
        invariant 0 <= dirIndex <= 8
        invariant forall d, s: Square :: 0 <= d < 8 && s < square ==> table[d, s] == RayMask(d, s)
        invariant forall d :: 0 <= d < dirIndex ==> table[d, square] == RayMask(d, square)
      {
        var ray := WalkRay(square, dirIndex);
        table[dirIndex, square] := ray;
        dirIndex := dirIndex + 1;
      }
      square := square + 1;
    }
  }

  /** The inner loop of `ray_mask`: step from `square` along one direction until an edge. */
  method WalkRay(square: Square, dirIndex: int) returns (ray: Bitboard)
    requires 0 <= dirIndex < 8
    ensures ray == RayMask(dirIndex, square)
  {
    var dir := DIRECTIONS[dirIndex];
    ray := {};
    var target := square + dir;
    while target >= 0 && target < 64
      invariant 0 <= target - dir < 64
      invariant ray + RayFrom(target, dir) == RayMask(dirIndex, square)
      invariant forall sq :: sq in ray ==> (if dir > 0 then sq < target else sq > target)
      decreases if dir > 0 then 64 - target else target
    {
      if Abs(target % 8 - (target - dir) % 8) > 1 {
        break;
      }
      ray := ray + {target};
      target := target + dir;
    }
  }

  lemma {:induction false} RayFromShape(t0: int, dir: int, t: Square)
    requires dir in DIRECTIONS && 0 <= t0 - dir < 64
    requires t in RayFrom(t0, dir)
    ensures dir > 0 ==> t >= t0
    ensures dir < 0 ==> t <= t0
    ensures 0 <= t - dir < 64
    ensures t - dir == t0 - dir || t - dir in RayFrom(t0, dir)
    ensures Abs(File(t) - File(t - dir)) <= 1
    decreases if dir > 0 then 64 - t0 else t0
  {
    if t != t0 {
      RayFromShape(t0 + dir, dir, t);
    }
  }

  /**
   * A ray never contains its own square, runs in the direction its index
   * names, and never wraps: each square on it is one step, at most one file
   * sideways, from the origin or from the previous square on the ray.
   */
  lemma RayMaskShape(dirIndex: int, sq: Square, t: Square)
    requires 0 <= dirIndex < 8
    requires t in RayMask(dirIndex, sq)
    ensures t != sq
    ensures dirIndex < 4 ==> t > sq
    ensures dirIndex >= 4 ==> t < sq
    ensures var prev := t - DIRECTIONS[dirIndex];
            0 <= prev < 64 && (prev == sq || prev in RayMask(dirIndex, sq))
            && Abs(File(t) - File(prev)) <= 1
  {
    RayFromShape(sq + DIRECTIONS[dirIndex], DIRECTIONS[dirIndex], t);
  }

  /** The squares of a ray that lie beyond its square `b` form the ray that continues from `b`. */
  lemma {:induction false} RayFromBeyond(t0: int, dir: int, b: Square)
    requires dir in DIRECTIONS && 0 <= t0 - dir < 64
    requires b in RayFrom(t0, dir)
    ensures RayFrom(b + dir, dir) == set t | t in RayFrom(t0, dir) && (if dir > 0 then t > b else t < b)
    decreases if dir > 0 then 64 - t0 else t0
  {
    var rest := RayFrom(t0 + dir, dir);
    assert RayFrom(t0, dir) == {t0 as Square} + rest;
    forall t: Square
      ensures t in rest ==> (dir > 0 ==> t > t0) && (dir < 0 ==> t < t0)
    {
      if t in rest {
        RayFromShape(t0 + dir, dir, t);
      }
    }
    if b != t0 {
      RayFromBeyond(t0 + dir, dir, b);
      RayFromShape(t0 + dir, dir, b);
    }
  }

  /** `ray_mask[d][b]` for a square `b` on `ray_mask[d][sq]` is the part of the latter beyond `b`. */
  lemma RayMaskBeyond(d: int, sq: Square, b: Square)
    requires 0 <= d < 8 && b in RayMask(d, sq)
    ensures RayMask(d, b) == set t | t in RayMask(d, sq) && (if d < 4 then t > b else t < b)
  {
    RayFromBeyond(sq + DIRECTIONS[d], DIRECTIONS[d], b);
  }

  /** The rank step of direction `d`. */
  function DirRank(d: int): int
    requires 0 <= d < 8
  {
    [1, 1, 1, 0, -1, -1, -1, 0][d]
  }

  /** The file step of direction `d`. */
  function DirFile(d: int): int
    requires 0 <= d < 8
  {
    [-1, 0, 1, 1, 1, 0, -1, -1][d]
  }

  /** A step along direction `d` that does not wrap moves one rank and one file as the direction says. */
  lemma RayStep(d: int, prev: Square, t: Square)
    requires 0 <= d < 8 && t == prev + DIRECTIONS[d] && Abs(File(t) - File(prev)) <= 1
    ensures Rank(t) == Rank(prev) + DirRank(d) && File(t) == File(prev) + DirFile(d)
  {
    assert t - prev == 8 * (Rank(t) - Rank(prev)) + (File(t) - File(prev));
  }

  /** The `j`-th square of ray `d` from `sq` sits `j` steps away along the direction. */
  lemma {:induction false} RayCoords(d: int, sq: Square, t: Square) returns (j: int)
    requires 0 <= d < 8 && t in RayMask(d, sq)
    ensures j >= 1
    ensures Rank(t) == Rank(sq) + Scale(j, DirRank(d)) && File(t) == File(sq) + Scale(j, DirFile(d))
    decreases Abs(t - sq)
  {
    RayMaskShape(d, sq, t);
    var prev := t - DIRECTIONS[d];
    RayStep(d, prev, t);
    if prev == sq {
      j := 1;
    } else {
      RayMaskShape(d, sq, prev);
      var i := RayCoords(d, sq, prev);
      j := i + 1;
    }
  }

  /** Every square of a ray shares a rank, a file or a diagonal with the ray's origin. */
  lemma RayAligned(d: int, sq: Square, t: Square)
    requires 0 <= d < 8 && t in RayMask(d, sq)
    ensures Aligned(sq, t)
  {
    var j := RayCoords(d, sq, t);
  }

  // ---------------------------------------------------------------
  // File, rank, adjacent-file and passed-pawn masks
  // ---------------------------------------------------------------

  /** `file_mask[f] == 0x0101010101010101 << f`: the squares of file `f`. */
  function FileMask(f: int): Bitboard { set sq: Square | File(sq) == f }

  /** `rank_mask[r] == 0xff << 8 * r`: the squares of rank `r`. */
  function RankMask(r: int): Bitboard { set sq: Square | Rank(sq) == r }

  /** `adjacend_file_mask[f]`, written with the source's edge cases. */
  function AdjacentFileMask(f: int): Bitboard
  {
    if f == 0 then FileMask(1) else if f == 7 then FileMask(6) else FileMask(f - 1) + FileMask(f + 1)
  }

  method BuildFileMasks() returns (files: array<Bitboard>, ranks: array<Bitboard>, adjacent: array<Bitboard>)
    ensures fresh(files) && fresh(ranks) && fresh(adjacent)
    ensures files.Length == 8 && ranks.Length == 8 && adjacent.Length == 8
    ensures forall i :: 0 <= i < 8 ==> files[i] == FileMask(i) && ranks[i] == RankMask(i)
    ensures forall i :: 0 <= i < 8 ==> adjacent[i] == AdjacentFileMask(i)
  {
    files := new Bitboard[8](i => FileMask(i));
    ranks := new Bitboard[8](i => RankMask(i));
    adjacent := new Bitboard[8](_ => {});
    var i := 0;
    while i < 8
      invariant 0 <= i <= 8
      invariant forall k :: 0 <= k < i ==> adjacent[k] == AdjacentFileMask(k)
      invariant forall k :: 0 <= k < 8 ==> files[k] == FileMask(k) && ranks[k] == RankMask(k)
    {
      if i == 0 {
        adjacent[0] := files[1];
      } else if i == 7 {
        adjacent[7] := files[6];
      } else {
        adjacent[i] := files[i - 1] + files[i + 1];
      }
      i := i + 1;
    }
  }

  /** The files next to `f`, and only those. */
  lemma AdjacentFileMaskExact(f: int, t: Square)
    requires 0 <= f < 8
    ensures t in AdjacentFileMask(f) <==> Abs(File(t) - f) == 1
  {
  }

  /** `passed_pawn_mask[color][sq]` as the loop composes it from file and rank masks. */
  function PassedPawnMask(color: int, sq: Square): Bitboard
    requires 0 <= color < 2
  {
    var files := AdjacentFileMask(File(sq)) + FileMask(File(sq));
    var ranks := if color == 0 then set t: Square | Rank(t) > Rank(sq)
                 else set t: Square | Rank(t) < Rank(sq);
    ranks * files
  }

  method BuildPassedPawnMask() returns (table: array2<Bitboard>)
    ensures fresh(table) && table.Length0 == 2 && table.Length1 == 64
    ensures forall c, sq: Square :: 0 <= c < 2 ==> table[c, sq] == PassedPawnMask(c, sq)
  {
    table := new Bitboard[2, 64]((_, _) => {});
    var square := 0;
    while square < 64
      invariant 0 <= square <= 64
      invariant forall c, s: Square :: 0 <= c < 2 && s < square ==> table[c, s] == PassedPawnMask(c, s)
    {
      var files := AdjacentFileMask(square % 8) + FileMask(square % 8);
      var forward: Bitboard := {};
      var backward: Bitboard := {};
      var row := square / 8 + 1;
      while row < 8
        invariant square / 8 + 1 <= row <= 8
        invariant forward == set t: Square | square / 8 < Rank(t) < row
      {
        forward := forward + RankMask(row);
        row := row + 1;
        assert forall t: Square :: t in forward <==> square / 8 < Rank(t) < row;
      }
      row := 0;
      while row < square / 8
        invariant 0 <= row <= square / 8
        invariant backward == set t: Square | Rank(t) < row
      {
        backward := backward + RankMask(row);
        row := row + 1;
        assert forall t: Square :: t in backward <==> Rank(t) < row;
      }
      assert forward == set t: Square | Rank(t) > Rank(square);
      assert backward == set t: Square | Rank(t) < Rank(square);
      table[0, square] := forward * files;
      table[1, square] := backward * files;
      square := square + 1;
    }
  }

  /**
   * The passed-pawn mask of a white pawn is the squares ahead of it on its own
   * and the adjacent files; a black pawn's mask uses the ranks below it.
   */
  lemma PassedPawnMaskExact(color: int, sq: Square, t: Square)
    requires 0 <= color < 2
    ensures t in PassedPawnMask(color, sq) <==>
      (if color == 0 then Rank(t) > Rank(sq) else Rank(t) < Rank(sq)) && Abs(File(t) - File(sq)) <= 1
  {
    AdjacentFileMaskExact(File(sq), t);
  }

  // ---------------------------------------------------------------
  // DISTANCE_BONUS
  // ---------------------------------------------------------------

  function DistanceBonus(king: Square, attacker: Square): (r: int)
    ensures 0 <= r <= 3
    ensures r == 0 <==> Chebyshev(king, attacker) >= 3
    ensures r == 3 <==> king == attacker
  {
    Max(0, 3 - Chebyshev(king, attacker))
  }

  method BuildDistanceBonus() returns (table: array2<int>)
    ensures fresh(table) && table.Length0 == 64 && table.Length1 == 64
    ensures forall k: Square, a: Square :: table[k, a] == DistanceBonus(k, a)
  {
    table := new int[64, 64]((_, _) => 0);
    var king := 0;
    while king < 64
      invariant 0 <= king <= 64
      invariant forall k: Square, a: Square :: k < king ==> table[k, a] == DistanceBonus(k, a)
    {
      var att := 0;
      while att < 64
        invariant 0 <= att <= 64
        invariant forall k: Square, a: Square :: k < king ==> table[k, a] == DistanceBonus(k, a)
        invariant forall a: Square :: a < att ==> table[king, a] == DistanceBonus(king, a)
      {
        var rankDiff := Abs(king / 8 - att / 8);
        var fileDiff := Abs(king % 8 - att % 8);
        var distance := Max(rankDiff, fileDiff);
        table[king, att] := Max(0, 3 - distance);
        att := att + 1;
      }
      king := king + 1;
    }
  }

  // ---------------------------------------------------------------
  // Rook blocker masks and magic-number test
  // ---------------------------------------------------------------

  /** The rook's relevant blockers: its rank and file without the square itself and without the edges. */
  function RookBlockers(sq: Square): Bitboard
  {
    set t: Square | t != sq &&
      ((Rank(t) == Rank(sq) && 1 <= File(t) <= 6) || (File(t) == File(sq) && 1 <= Rank(t) <= 6))
  }

  method CalculateRookBlockerMask(square: Square) returns (mask: Bitboard)
    ensures mask == RookBlockers(square)
  {
    var rank, file := square / 8, square % 8;
    assert rank == Rank(square) && file == File(square);
    var horizontal := RankBlockerLoops(rank, file);
    mask := FileBlockerLoops(rank, file, horizontal);
    assert forall t: Square :: t in mask <==> t in RookBlockers(square);
  }

  /** The first two loops of `calculate_rook_blocker_mask`: files `file + 1 .. 6`, then `file - 1 .. 1`. */
  method RankBlockerLoops(rank: int, file: int) returns (mask: Bitboard)
    requires 0 <= rank < 8 && 0 <= file < 8
    ensures forall t: Square :: t in mask <==> Rank(t) == rank && t != rank * 8 + file && 1 <= File(t) <= 6
  {
    mask := {};
    var f := file + 1;
    while f <= 6
      invariant file + 1 <= f <= 7 || (file == 7 && f == 8)
      invariant forall t: Square :: t in mask <==> Rank(t) == rank && file < File(t) < f
    {
      SquareAt(rank, f);
      mask := mask + {rank * 8 + f};
      f := f + 1;
    }
    ghost var right := mask;
    f := file - 1;
    while f >= 1
      invariant 0 <= f <= file - 1 || (file == 0 && f == -1)
      invariant forall t: Square :: t in mask <==> t in right || (Rank(t) == rank && f < File(t) < file)
    {
      SquareAt(rank, f);
      mask := mask + {rank * 8 + f};
      f := f - 1;
    }
  }

  /** The last two loops: ranks `rank + 1 .. 6`, then `rank - 1 .. 1`, added to `start`. */
  method FileBlockerLoops(rank: int, file: int, start: Bitboard) returns (mask: Bitboard)
    requires 0 <= rank < 8 && 0 <= file < 8
    ensures forall t: Square :: t in mask <==> t in start || (File(t) == file && t != rank * 8 + file && 1 <= Rank(t) <= 6)
  {
    mask := start;
    var r := rank + 1;
    while r <= 6
      invariant rank + 1 <= r <= 7 || (rank == 7 && r == 8)
      invariant forall t: Square :: t in mask <==> t in start || (File(t) == file && rank < Rank(t) < r)
    {
      SquareAt(r, file);
      mask := mask + {r * 8 + file};
      r := r + 1;
    }
    ghost var up := mask;
    r := rank - 1;
    while r >= 1
      invariant 0 <= r <= rank - 1 || (rank == 0 && r == -1)
      invariant forall t: Square :: t in mask <==> t in up || (File(t) == file && r < Rank(t) < rank)
    {
      SquareAt(r, file);
      mask := mask + {r * 8 + file};
      r := r - 1;
    }
  }

  /** A blocker mask has between 1 and 63 squares, so the magic shift `64 - bits` is defined. */
  lemma RookBlockersSize(sq: Square)
    ensures 0 < |RookBlockers(sq)| < 64
  {
    var t: Square := Rank(sq) * 8 + (if File(sq) == 1 then 2 else 1);
    assert t in RookBlockers(sq);
    CardinalityOfSubset(RookBlockers(sq), AllSquares() - {sq});
    AllSquaresSize();
  }

  lemma {:induction false} SquaresFromSize(i: int)
    requires 0 <= i <= 64
    ensures |SquaresFrom(i)| == 64 - i
    decreases 64 - i
  {
    if i < 64 {
      SquaresFromSize(i + 1);
      assert SquaresFrom(i) == {i} + SquaresFrom(i + 1);
    }
  }

  lemma AllSquaresSize()
    ensures |AllSquares()| == 64
  {
    SquaresFromSize(0);
  }

  // ---------------------------------------------------------------
  // Blocker subsets and magic numbers. A `uint64_t` bitboard is read as the
  // number `Value(b)`, the sum of `2^sq` over its squares.
  // ---------------------------------------------------------------

  function Pow2(n: nat): (p: nat)
    ensures p >= 1
  {
    if n == 0 then 1 else 2 * Pow2(n - 1)
  }

  /** 2^64: `uint64_t` arithmetic is modulo this. */
  const WORD: nat := 0x1_0000_0000_0000_0000

  /** The number formed by the bits of `b` below index `n`. */
  function ValueBelow(b: Bitboard, n: int): (v: nat)
    requires 0 <= n <= 64
  {
    if n == 0 then 0 else ValueBelow(b, n - 1) + (if n - 1 in b then Pow2(n - 1) else 0)
  }

  /** The unsigned 64-bit integer whose set bits are `b`. */
  function Value(b: Bitboard): nat
  {
    ValueBelow(b, 64)
  }

  /** The squares with index below `n`: the bits of `(1 << n) - 1`. */
  function SquaresBelow(n: int): (b: Bitboard)
    requires 0 <= n <= 64
    ensures forall sq: Square :: sq in b <==> sq < n
  {
    AllSquares() - SquaresFrom(n)
  }

  /**
   * `s - 1` for a non-zero `s`: the borrow clears the lowest set bit and sets
   * every bit below it.
   */
  function Decrement(s: Bitboard): (d: Bitboard)
    requires s != {}
    ensures Value(d) + 1 == Value(s)
  {
    var l: Square := Lsb(s);
    DecrementValue(s, l);
    (s - {l}) + SquaresBelow(l)
  }

  /** `(subset - 1) & mask`, the carry-rippler step. */
  function NextSubset(s: Bitboard, mask: Bitboard): (n: Bitboard)
    requires s != {}
    ensures n <= mask
    ensures Value(n) < Value(s)
  {
    var d := Decrement(s);
    AndValue(d, mask);
    d * mask
  }

  lemma {:induction false} ValueBelowBound(b: Bitboard, n: int)
    requires 0 <= n <= 64
    ensures ValueBelow(b, n) < Pow2(n)
  {
    if n > 0 {
      ValueBelowBound(b, n - 1);
    }
  }

  /** A bitboard holding all bits below `n` has value `2^n - 1` below `n`. */
  lemma {:induction false} ValueBelowFull(b: Bitboard, n: int)
    requires 0 <= n <= 64
    requires forall sq: Square :: sq < n ==> sq in b
    ensures ValueBelow(b, n) + 1 == Pow2(n)
  {
    if n > 0 {
      ValueBelowFull(b, n - 1);
    }
  }

  /** Bits below `n` decide the value below `n`. */
  lemma {:induction false} ValueBelowAgree(a: Bitboard, b: Bitboard, n: int)
    requires 0 <= n <= 64
    requires forall sq: Square :: sq < n ==> (sq in a <==> sq in b)
    ensures ValueBelow(a, n) == ValueBelow(b, n)
  {
    if n > 0 {
      ValueBelowAgree(a, b, n - 1);
    }
  }

  /**
   * Two bitboards that agree from `k + 1` upwards keep, from there upwards,
   * the difference of their values below `k + 1`.
   */
  lemma {:induction false} ValueBelowShift(a: Bitboard, b: Bitboard, k: int, n: int)
    requires 0 <= k < n <= 64
    requires forall sq: Square :: k < sq < n ==> (sq in a <==> sq in b)
    ensures ValueBelow(a, n) - ValueBelow(b, n) == ValueBelow(a, k + 1) - ValueBelow(b, k + 1)
  {
    if n > k + 1 {
      ValueBelowShift(a, b, k, n - 1);
    }
  }

  lemma DecrementValue(s: Bitboard, l: Square)
    requires s != {} && l == Lsb(s)
    ensures Value((s - {l}) + SquaresBelow(l)) + 1 == Value(s)
  {
    var d := (s - {l}) + SquaresBelow(l);
    ValueBelowFull(d, l);
    ValueBelowAgree(s, {}, l);
    assert ValueBelow(s, l) == 0 by {
      ValueBelowZero(l);
    }
    assert ValueBelow(d, l + 1) == Pow2(l) - 1;
    assert ValueBelow(s, l + 1) == Pow2(l);
    if l + 1 < 64 {
      ValueBelowShift(d, s, l, 64);
    }
  }

  lemma {:induction false} ValueBelowZero(n: int)
    requires 0 <= n <= 64
    ensures ValueBelow({}, n) == 0
  {
    if n > 0 {
      ValueBelowZero(n - 1);
    }
  }

  /** Clearing bits never increases the value. */
  lemma {:induction false} ValueBelowSubset(a: Bitboard, b: Bitboard, n: int)
    requires 0 <= n <= 64
    requires a <= b
    ensures ValueBelow(a, n) <= ValueBelow(b, n)
  {
    if n > 0 {
      ValueBelowSubset(a, b, n - 1);
    }
  }

  lemma AndValue(d: Bitboard, mask: Bitboard)
    ensures Value(d * mask) <= Value(d)
  {
    ValueBelowSubset(d * mask, d, 64);
  }

  /**
   * Two words that agree above bit `k` are ordered by bit `k`: the highest
   * differing bit decides an unsigned comparison.
   */
  lemma HighestBitDecides(a: Bitboard, b: Bitboard, k: Square)
    requires forall sq: Square :: k < sq ==> (sq in a <==> sq in b)
    requires k in b && k !in a
    ensures Value(a) < Value(b)
  {
    if k + 1 < 64 {
      ValueBelowShift(a, b, k, 64);
    }
    ValueBelowBound(a, k);
  }

  /** The highest bit where two different words differ. */
  lemma HighestDifference(a: Bitboard, b: Bitboard) returns (k: Square)
    requires a != b
    ensures k in a <==> k !in b
    ensures forall sq: Square :: k < sq ==> (sq in a <==> sq in b)
  {
    var d := (a - b) + (b - a);
    k := Msb(d);
  }

  /** Different bit sets are different numbers. */
  lemma ValueInjective(a: Bitboard, b: Bitboard)
    requires Value(a) == Value(b)
    ensures a == b
  {
    if a != b {
      var k := HighestDifference(a, b);
      if k in b {
        HighestBitDecides(a, b, k);
      } else {
        HighestBitDecides(b, a, k);
      }
    }
  }

  /**
   * The carry-rippler step skips no subset: every subset of `mask` below the
   * non-empty subset `s` is at most `(s - 1) & mask`.
   */
  lemma CarryRipplerComplete(s: Bitboard, mask: Bitboard, t: Bitboard)
    requires s != {} && s <= mask && t <= mask
    requires Value(t) < Value(s)
    ensures Value(t) <= Value(NextSubset(s, mask))
  {
    var n := NextSubset(s, mask);
    var l: Square := Lsb(s);
    assert forall sq :: sq in n <==> (sq in s && sq != l) || (sq < l && sq in mask);
    if Value(n) < Value(t) {
      var k := HighestDifference(t, n);
      if k in n {
        HighestBitDecides(t, n, k);
        assert false;
      } else if k < l {
        assert false;
      } else if k == l {
        assert s <= t;
        ValueBelowSubset(s, t, 64);
        assert false;
      } else {
        HighestBitDecides(s, t, k);
        assert false;
      }
    }
  }

  /**
   * `generate_blocker_subsets`: pushes 0, then walks the subsets of `mask`
   * downwards with the carry-rippler step `(subset - 1) & mask`. The subsets
   * come out in strictly decreasing numeric order, so none is pushed twice,
   * and every subset of `mask` is pushed.
   */
  method GenerateBlockerSubsets(mask: Bitboard) returns (subsets: seq<Bitboard>)
    ensures |subsets| >= 1 && subsets[0] == {}
    ensures mask == {} <==> |subsets| == 1
    ensures mask != {} ==> subsets[1] == mask
    ensures forall i :: 0 <= i < |subsets| ==> subsets[i] <= mask
    ensures forall i, j :: 1 <= i < j < |subsets| ==> Value(subsets[i]) > Value(subsets[j]) > 0
    ensures forall i, j :: 0 <= i < j < |subsets| ==> subsets[i] != subsets[j]
    ensures forall t :: t <= mask ==> t in subsets
  {
    subsets := [{}];
    var subset := mask;
    forall t | t <= mask ensures Value(t) <= Value(mask) {
      ValueBelowSubset(t, mask, 64);
    }
    while subset != {}
      invariant SubsetsSoFar(subsets, subset, mask)
      decreases Value(subset)
    {
      var next := NextSubset(subset, mask);
      SubsetsStep(subsets, subset, mask);
      subsets := subsets + [subset];
      subset := next;
    }
    forall i, j | 0 <= i < j < |subsets| ensures subsets[i] != subsets[j] {
      if i > 0 {
        assert Value(subsets[i]) > Value(subsets[j]);
      }
    }
    ValueBelowZero(64);
    forall t | t <= mask ensures t in subsets {
      if t == {} {
        assert subsets[0] == t;
      } else {
        ValueNonEmpty(t);
      }
    }
  }

  /**
   * What `generate_blocker_subsets` has pushed before the subset `subset`:
   * 0 first, then `mask` and subsets of it in strictly decreasing order, all
   * above `subset`, and among them every subset of `mask` above `subset`.
   */
  predicate SubsetsSoFar(subsets: seq<Bitboard>, subset: Bitboard, mask: Bitboard)
  {
    && subset <= mask
    && |subsets| >= 1 && subsets[0] == {}
    && (|subsets| == 1 ==> subset == mask)
    && (|subsets| > 1 ==> subsets[1] == mask)
    && (forall i :: 0 <= i < |subsets| ==> subsets[i] <= mask)
    && (forall i :: 1 <= i < |subsets| ==> Value(subsets[i]) > Value(subset))
    && (forall i, j :: 1 <= i < j < |subsets| ==> Value(subsets[i]) > Value(subsets[j]) > 0)
    && (forall i :: 1 <= i < |subsets| ==> subsets[i] != {})
    && (forall t :: t <= mask && Value(t) > Value(subset) ==> t in subsets)
  }

  /** Pushing a non-empty subset and stepping to the next one keeps the order. */
  lemma SubsetsStep(subsets: seq<Bitboard>, subset: Bitboard, mask: Bitboard)
    requires subset != {} && SubsetsSoFar(subsets, subset, mask)
    ensures SubsetsSoFar(subsets + [subset], NextSubset(subset, mask), mask)
  {
    ValueNonEmpty(subset);
    var s2 := subsets + [subset];
    var n := |subsets|;
    var next := NextSubset(subset, mask);
    assert s2[n] == subset;
    forall i | 0 <= i < n + 1 ensures s2[i] <= mask {
      if i < n { assert s2[i] == subsets[i]; }
    }
    forall i | 1 <= i < n + 1 ensures Value(s2[i]) > Value(next) && s2[i] != {} {
      if i < n { assert s2[i] == subsets[i]; }
    }
    forall i, j | 1 <= i < j < n + 1 ensures Value(s2[i]) > Value(s2[j]) > 0 {
      assert s2[i] == subsets[i];
      if j < n { assert s2[j] == subsets[j]; }
    }
    forall t | t <= mask && Value(t) > Value(next) ensures t in s2 {
      if Value(t) == Value(subset) {
        ValueInjective(t, subset);
      } else if Value(t) < Value(subset) {
        CarryRipplerComplete(subset, mask, t);
      }
    }
  }

  lemma ValueNonEmpty(b: Bitboard)
    requires b != {}
    ensures Value(b) > 0
  {
    var sq :| sq in b;
    ValueBelowNonEmpty(b, sq, 64);
  }

  lemma {:induction false} ValueBelowNonEmpty(b: Bitboard, sq: Square, n: int)
    requires sq < n <= 64 && sq in b
    ensures ValueBelow(b, n) > 0
  {
    if n - 1 != sq {
      ValueBelowNonEmpty(b, sq, n - 1);
    }
  }

  /**
   * The index a candidate magic maps a blocker set to:
   * `(blockers * magic) >> shift` with the product wrapping at 2^64.
   */
  function MagicIndex(blockers: Bitboard, magic: nat, shift: nat): nat
  {
    ShiftRight((Value(blockers) * magic) % WORD, shift)
  }

  /** `w >> n` on a non-negative number, one halving per step. */
  function ShiftRight(w: nat, n: nat): nat
  {
    if n == 0 then w else ShiftRight(w / 2, n - 1)
  }

  /** `list` holds every subset of `mask`, each once, and nothing else. */
  predicate EnumeratesSubsets(list: seq<Bitboard>, mask: Bitboard)
  {
    && (forall i :: 0 <= i < |list| ==> list[i] <= mask)
    && (forall t :: t <= mask ==> t in list)
    && (forall i, j :: 0 <= i < j < |list| ==> list[i] != list[j])
  }

  /**
   * `find_all_combinations`: the blocker subsets of every square's rook
   * mask, as `rook_blocker_combinations` holds them.
   */
  method FindAllCombinations() returns (combinations: seq<seq<Bitboard>>)
    ensures |combinations| == 64
    ensures forall sq: Square :: EnumeratesSubsets(combinations[sq], RookBlockers(sq))
    ensures forall sq: Square ::
              |combinations[sq]| >= 2 && combinations[sq][0] == {} && combinations[sq][1] == RookBlockers(sq)
  {
    combinations := [];
    var square := 0;
    while square < 64
      invariant 0 <= square <= 64 && |combinations| == square
      invariant forall sq: Square :: sq < square ==> EnumeratesSubsets(combinations[sq], RookBlockers(sq))
      invariant forall sq: Square :: sq < square ==>
                  |combinations[sq]| >= 2 && combinations[sq][0] == {} && combinations[sq][1] == RookBlockers(sq)
    {
      var mask := CalculateRookBlockerMask(square);
      RookBlockersSize(square);
      var subsets := GenerateBlockerSubsets(mask);
      combinations := combinations + [subsets];
      square := square + 1;
    }
  }

  /**
   * Over a list that enumerates the subsets of `mask`, "no two entries share
   * an index" is "no two different subsets share an index".
   */
  lemma DistinctOverSubsets(magic: nat, shift: nat, mask: Bitboard, list: seq<Bitboard>)
    requires EnumeratesSubsets(list, mask)
    ensures (forall i, j :: 0 <= i < j < |list| ==>
               MagicIndex(list[i], magic, shift) != MagicIndex(list[j], magic, shift))
        <==> (forall a, b :: a <= mask && b <= mask && a != b ==>
               MagicIndex(a, magic, shift) != MagicIndex(b, magic, shift))
  {
    if forall i, j :: 0 <= i < j < |list| ==>
         MagicIndex(list[i], magic, shift) != MagicIndex(list[j], magic, shift)
    {
      forall a, b | a <= mask && b <= mask && a != b
        ensures MagicIndex(a, magic, shift) != MagicIndex(b, magic, shift)
      {
        assert a in list && b in list;
        var i :| 0 <= i < |list| && list[i] == a;
        var j :| 0 <= j < |list| && list[j] == b;
        assert i != j;
      }
    }
  }

  /**
   * `is_magic_number`: true exactly when no two blocker sets of the square
   * share an index; over the square's full list of blocker subsets, exactly
   * when the candidate maps different blocker sets to different indices.
   */
  method IsMagicNumber(magic: nat, square: Square, combinations: seq<Bitboard>) returns (ok: bool)
    requires magic < WORD
    ensures |RookBlockers(square)| < 64
    ensures var shift := 64 - |RookBlockers(square)|;
      ok <==> forall i, j :: 0 <= i < j < |combinations| ==>
                MagicIndex(combinations[i], magic, shift) != MagicIndex(combinations[j], magic, shift)
    ensures var shift := 64 - |RookBlockers(square)|;
      EnumeratesSubsets(combinations, RookBlockers(square)) ==>
        (ok <==> forall a, b :: a <= RookBlockers(square) && b <= RookBlockers(square) && a != b ==>
                   MagicIndex(a, magic, shift) != MagicIndex(b, magic, shift))
  {
    var mask := CalculateRookBlockerMask(square);
    RookBlockersSize(square);
    var relevantBits := Popcount(mask);
    ok := DistinctIndices(magic, 64 - relevantBits, combinations);
    if EnumeratesSubsets(combinations, mask) {
      DistinctOverSubsets(magic, 64 - relevantBits, mask, combinations);
    }
  }

  /** The loop of `is_magic_number`: the first index met twice rejects the candidate. */
  method DistinctIndices(magic: nat, shift: nat, combinations: seq<Bitboard>) returns (ok: bool)
    ensures ok <==> forall i, j :: 0 <= i < j < |combinations| ==>
                      MagicIndex(combinations[i], magic, shift) != MagicIndex(combinations[j], magic, shift)
  {
    var used: set<nat> := {};
    var k := 0;
    while k < |combinations|
      invariant 0 <= k <= |combinations|
      invariant forall x :: x in used <==> exists i :: 0 <= i < k && MagicIndex(combinations[i], magic, shift) == x
      invariant forall i, j :: 0 <= i < j < k ==>
                  MagicIndex(combinations[i], magic, shift) != MagicIndex(combinations[j], magic, shift)
    {
      var index := MagicIndex(combinations[k], magic, shift);
      if index in used {
        return false;
      }
      used := used + {index};
      k := k + 1;
    }
    return true;
  }
}
