// Bit utilities of the engine (include/utils.h).
//
// A 64-bit bitboard is modelled as the set of the indices of its set bits.
// `1ULL << sq` is `{sq}`, `&` is `*`, `|` is `+`, `^` is `Xor`, `~` is
// `Complement`.
module Bits {

  /** A square index a1 = 0 .. h8 = 63 (rank * 8 + file). */
  type Square = x: int | 0 <= x < 64

  /** A bitboard: the squares whose bit is set. */
  type Bitboard = set<Square>

  function File(sq: Square): (f: int)
    ensures 0 <= f < 8
  { sq % 8 }

  function Rank(sq: Square): (r: int)
    ensures 0 <= r < 8
    ensures sq == r * 8 + File(sq)
  { sq / 8 }

  /** The square on rank `r` and file `f`. */
  lemma SquareAt(r: int, f: int)
    requires 0 <= r < 8 && 0 <= f < 8
    ensures 0 <= r * 8 + f < 64 && Rank(r * 8 + f) == r && File(r * 8 + f) == f
  {
  }

  function Abs(x: int): (r: int)
    ensures r >= 0 && (r == x || r == -x)
  { if x < 0 then -x else x }

  function Max(a: int, b: int): (r: int)
    ensures r >= a && r >= b && (r == a || r == b)
  { if a >= b then a else b }

  function Min(a: int, b: int): (r: int)
    ensures r <= a && r <= b && (r == a || r == b)
  { if a <= b then a else b }

  /** C++ `/` on `int` for a positive divisor: the quotient truncated toward zero. */
  function TruncDiv(a: int, b: int): (q: int)
    requires b > 0
    ensures a >= 0 ==> q == a / b
    ensures -b < a < b ==> q == 0
  {
    if a >= 0 then a / b else -((-a) / b)
  }

  /** Truncation is symmetric about zero, unlike Euclidean division. */
  lemma TruncDivOdd(a: int, b: int)
    requires b > 0
    ensures TruncDiv(-a, b) == -TruncDiv(a, b)
  {
  }

  /** Chebyshev (king-step) distance between two squares. */
  function Chebyshev(a: Square, b: Square): (d: int)
    ensures 0 <= d <= 7
    ensures d == 0 <==> a == b
  { Max(Abs(Rank(a) - Rank(b)), Abs(File(a) - File(b))) }

  /** The squares with index `i` or above. */
  function SquaresFrom(i: int): (b: Bitboard)
    requires 0 <= i <= 64
    ensures forall sq: Square :: sq in b <==> i <= sq
    decreases 64 - i
  {
    if i == 64 then {} else {i} + SquaresFrom(i + 1)
  }

  /** The full board, `0xFFFF_FFFF_FFFF_FFFF`. */
  function AllSquares(): (b: Bitboard)
    ensures forall sq: Square :: sq in b
  { SquaresFrom(0) }

  function Complement(b: Bitboard): (c: Bitboard)
    ensures forall sq: Square :: sq in c <==> sq !in b
  { AllSquares() - b }

  /** Bitwise exclusive or. */
  function Xor(a: Bitboard, b: Bitboard): (c: Bitboard)
    ensures forall sq: Square :: sq in c <==> (sq in a <==> sq !in b)
  { (a - b) + (b - a) }

  /** `b ^ (1ULL << sq)`. */
  function Toggle(b: Bitboard, sq: Square): (c: Bitboard)
    ensures sq in c <==> sq !in b
    ensures forall x: Square :: x != sq ==> (x in c <==> x in b)
  { Xor(b, {sq}) }

  lemma ToggleTwice(b: Bitboard, sq: Square)
    ensures Toggle(Toggle(b, sq), sq) == b
  {
    assert forall x: Square :: x in Toggle(Toggle(b, sq), sq) <==> x in b;
  }

  // ---------------------------------------------------------------
  // get_lsb / get_msb: scans standing for __builtin_ctzll / clzll
  // ---------------------------------------------------------------

  /** The lowest set bit at index `i` or above, or -1. */
  function LsbFrom(b: Bitboard, i: int): (r: int)
    requires 0 <= i <= 64
    ensures r == -1 <==> (forall sq: Square :: i <= sq ==> sq !in b)
    ensures r != -1 ==> i <= r < 64 && r in b && forall sq: Square :: i <= sq < r ==> sq !in b
    decreases 64 - i
  {
    if i == 64 then -1 else if i in b then i else LsbFrom(b, i + 1)
  }

  /** The highest set bit strictly below index `i`, or -1. */
  function MsbBelow(b: Bitboard, i: int): (r: int)
    requires 0 <= i <= 64
    ensures r == -1 <==> (forall sq: Square :: sq < i ==> sq !in b)
    ensures r != -1 ==> 0 <= r < i && r in b && forall sq: Square :: r < sq < i ==> sq !in b
  {
    if i == 0 then -1 else if i - 1 in b then i - 1 else MsbBelow(b, i - 1)
  }

  /** `get_lsb`: -1 for the empty board, else the least element. */
  function Lsb(b: Bitboard): (r: int)
    ensures b == {} <==> r == -1
    ensures b != {} ==> r in b && forall sq :: sq in b ==> r <= sq
  {
    LsbFrom(b, 0)
  }

  /** `get_msb`: -1 for the empty board, else the greatest element. */
  function Msb(b: Bitboard): (r: int)
    ensures b == {} <==> r == -1
    ensures b != {} ==> r in b && forall sq :: sq in b ==> sq <= r
  {
    MsbBelow(b, 64)
  }

  /** A board of one square is that square's singleton. */
  lemma SingletonIsLsb(b: Bitboard)
    ensures |b| == 1 ==> b == {Lsb(b)}
  {
    if |b| == 1 {
      var x := Lsb(b);
      assert b == (b - {x}) + {x};
    }
  }

  /** Removing a square other than the lowest keeps the lowest. */
  lemma LsbRemoveOther(b: Bitboard, x: Square)
    requires x in b && x != Lsb(b)
    ensures b - {x} != {} && Lsb(b - {x}) == Lsb(b)
  {
    var l := Lsb(b);
    assert l in b - {x};
  }

  /** Number of set bits of `b` among indices `i` .. 63. */
  function PopcountFrom(b: Bitboard, i: int): (n: nat)
    requires 0 <= i <= 64
    decreases 64 - i
  {
    if i == 64 then 0 else (if i in b then 1 else 0) + PopcountFrom(b, i + 1)
  }

  /** `popcount`: the builtin counts set bits one index at a time, so it is the number of squares. */
  function Popcount(b: Bitboard): (n: nat)
    ensures n == |b|
  {
    PopcountFromIsCardinality(b, 0);
    assert (set sq: Square | sq in b && 0 <= sq) == b;
    PopcountFrom(b, 0)
  }

  lemma {:induction false} PopcountFromIsCardinality(b: Bitboard, i: int)
    requires 0 <= i <= 64
    ensures PopcountFrom(b, i) == |set sq: Square | sq in b && i <= sq|
    decreases 64 - i
  {
    var above := set sq: Square | sq in b && i <= sq;
    if i == 64 {
      assert above == {};
    } else {
      PopcountFromIsCardinality(b, i + 1);
      var rest := set sq: Square | sq in b && i + 1 <= sq;
      if i in b {
        assert above == rest + {i};
      } else {
        assert above == rest;
      }
    }
  }

  // ---------------------------------------------------------------
  // Blockers on a ray
  // ---------------------------------------------------------------

  /**
   * `get_first_blocker_sq`: the occupied ray square nearest the origin,
   * the lowest index when the ray runs forwards and the highest otherwise.
   */
  function FirstBlocker(ray: Bitboard, occupied: Bitboard, forwards: bool): (r: int)
    ensures r == -1 <==> ray * occupied == {}
    ensures r != -1 ==> r in ray && r in occupied
    ensures r != -1 && forwards ==> forall sq :: sq in ray * occupied ==> r <= sq
    ensures r != -1 && !forwards ==> forall sq :: sq in ray * occupied ==> sq <= r
  {
    if forwards then Lsb(ray * occupied) else Msb(ray * occupied)
  }

  /**
   * `get_second_blocker_sq`. The hint `firstHint` has no effect: the source
   * tests `first_blocker_sq = -2`, an assignment whose value is non-zero, so it
   * always recomputes the first blocker.
   */
  function SecondBlocker(ray: Bitboard, occupied: Bitboard, forwards: bool, firstHint: int): (r: int)
    ensures r != -1 ==> r in ray * occupied && r != FirstBlocker(ray, occupied, forwards)
    ensures r != -1 && forwards ==> FirstBlocker(ray, occupied, forwards) < r
    ensures r != -1 && !forwards ==> r < FirstBlocker(ray, occupied, forwards)
  {
    var first := FirstBlocker(ray, occupied, forwards);
    if first == -1 then -1 else FirstBlocker(Toggle(ray, first), occupied, forwards)
  }

  /**
   * The second blocker is the next occupied ray square beyond the first one in
   * the same direction, and -1 exactly when fewer than two ray squares are
   * occupied.
   */
  lemma SecondBlockerIsNext(ray: Bitboard, occupied: Bitboard, forwards: bool, firstHint: int)
    ensures var first := FirstBlocker(ray, occupied, forwards);
            var r := SecondBlocker(ray, occupied, forwards, firstHint);
            && (r == -1 <==> |ray * occupied| < 2)
            && (r != -1 ==>
                  && r in ray * occupied && r != first
                  && (forwards ==> first < r && forall sq :: sq in ray * occupied && first < sq ==> r <= sq)
                  && (!forwards ==> r < first && forall sq :: sq in ray * occupied && sq < first ==> sq <= r))
  {
    var both := ray * occupied;
    var first := FirstBlocker(ray, occupied, forwards);
    if first != -1 {
      var first': Square := first;
      assert Toggle(ray, first') * occupied == both - {first'};
      if both - {first'} == {} {
        assert both == {first'};
      } else {
        var other :| other in both - {first'};
        assert {first', other} <= both;
        assert |{first', other}| == 2;
        CardinalityOfSubset({first', other}, both);
        var r := FirstBlocker(Toggle(ray, first'), occupied, forwards);
        assert r in both - {first'};
        if !forwards {
          assert forall sq :: sq in both && sq < first' ==> sq in both - {first'};
        } else {
          assert forall sq :: sq in both && first' < sq ==> sq in both - {first'};
        }
      }
    }
  }

  lemma CardinalityOfSubset<T>(a: set<T>, b: set<T>)
    requires a <= b
    ensures |a| <= |b|
  {
    assert b == a + (b - a);
  }

  // ---------------------------------------------------------------
  // Castling letters (the "KQkq" string of src/board.cpp)
  // ---------------------------------------------------------------

  /** `remove_castling_right`: erase every occurrence of `c`. */
  function RemoveCastlingRight(rights: string, c: char): (r: string)
    ensures c !in r
    ensures forall x :: x != c ==> (x in r <==> x in rights)
    ensures multiset(r) == multiset(rights)[c := 0]
  {
    if rights == [] then []
    else if rights[0] == c then
      assert rights == [rights[0]] + rights[1..];
      RemoveCastlingRight(rights[1..], c)
    else
      assert rights == [rights[0]] + rights[1..];
      [rights[0]] + RemoveCastlingRight(rights[1..], c)
  }

  /** The erase keeps the remaining letters in their order. */
  lemma {:induction false} RemoveCastlingRightDistributes(s: string, t: string, c: char)
    ensures RemoveCastlingRight(s + t, c) == RemoveCastlingRight(s, c) + RemoveCastlingRight(t, c)
  {
    if s != [] {
      assert (s + t)[1..] == s[1..] + t;
      RemoveCastlingRightDistributes(s[1..], t, c);
    } else {
      assert s + t == t;
    }
  }

  /** Removing a letter twice is the same as removing it once. */
  lemma {:induction false} RemoveCastlingRightIdempotent(s: string, c: char)
    ensures RemoveCastlingRight(RemoveCastlingRight(s, c), c) == RemoveCastlingRight(s, c)
  {
    if s != [] {
      RemoveCastlingRightIdempotent(s[1..], c);
    }
  }

  /** A string without `c` is left as it is. */
  lemma {:induction false} RemoveAbsentRight(s: string, c: char)
    requires c !in s
    ensures RemoveCastlingRight(s, c) == s
  {
    if s != [] {
      assert s == [s[0]] + s[1..];
      RemoveAbsentRight(s[1..], c);
    }
  }
}
