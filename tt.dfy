// The transposition table of include/engine.h and src/engine.cpp: the packed
// 64-bit `TTEntry`, `dist_mod64_fast`, and the four-entry clusters that
// `probe_tt` reads and `store_tt` writes. An entry is its unsigned 64-bit
// value; the six bit fields do not overlap, so the ORs of the packing are sums.
module Transposition {
  import opened Pieces
  import opened Moves

  /** 2^64: every entry and every hash is below it. */
  const WORD_RANGE: int := 0x1_0000_0000_0000_0000

  /** A `uint64_t` entry word. */
  type Entry = e: int | 0 <= e < WORD_RANGE

  /** `TTFlag`. */
  datatype Flag = Exact | LowerBound | UpperBound | Tempered

  /** The enumerator value of a flag. */
  function FlagIndex(f: Flag): (i: int)
    ensures 0 <= i < 4
  {
    match f
    case Exact => 0
    case LowerBound => 1
    case UpperBound => 2
    case Tempered => 3
  }

  /** `static_cast<TTFlag>` of a 2-bit value. */
  function FlagOfIndex(i: int): (f: Flag)
    requires 0 <= i < 4
    ensures FlagIndex(f) == i
  {
    if i == 0 then Exact else if i == 1 then LowerBound else if i == 2 then UpperBound else Tempered
  }

  /** A flag survives its 2-bit encoding. */
  lemma FlagIndexRoundTrip(f: Flag)
    ensures FlagOfIndex(FlagIndex(f)) == f
  {
    match f
    case Exact =>
    case LowerBound =>
    case UpperBound =>
    case Tempered =>
  }

  /** `static_cast<int16_t>` of a 16-bit pattern: two's complement. */
  function Int16(bits: int): (v: int)
    requires 0 <= bits < 0x1_0000
    ensures -0x8000 <= v < 0x8000 && v % 0x1_0000 == bits
  {
    if bits < 0x8000 then bits else bits - 0x1_0000
  }

  // ---------------------------------------------------------------
  // TTEntry
  // ---------------------------------------------------------------

  /**
   * Six field values side by side: score in bits 0-15, depth 16-23, flag
   * 24-25, generation 26-31, move 32-47 and key 48-63.
   */
  function Layout(s: int, d: int, b: int, g: int, m: int, k: int): int
  {
    s + 0x1_0000 * d + 0x100_0000 * b + 0x400_0000 * g + 0x1_0000_0000 * m + 0x1_0000_0000_0000 * k
  }

  /**
   * `TTEntry(score, depth, bound, generation, move, key)`: each argument,
   * narrowed to its parameter type and masked to its field. Narrowing and
   * masking are both reduction modulo a power of two, so each field is the
   * argument modulo its field size. `moveCode` is `move.get_int()`.
   */
  function Pack(score: int, depth: int, bound: Flag, generation: int, moveCode: int, key: int): (e: Entry)
    ensures ScoreOf(e) == Int16(score % 0x1_0000) && DepthOf(e) == depth % 0x100 && FlagOf(e) == bound
    ensures GenerationOf(e) == generation % 0x40 && MoveCodeOf(e) == moveCode % 0x1_0000 && KeyOf(e) == key % 0x1_0000
  {
    LayoutFields(score % 0x1_0000, depth % 0x100, FlagIndex(bound), generation % 0x40, moveCode % 0x1_0000, key % 0x1_0000);
    FlagIndexRoundTrip(bound);
    Layout(score % 0x1_0000, depth % 0x100, FlagIndex(bound), generation % 0x40, moveCode % 0x1_0000, key % 0x1_0000)
  }

  /** `score()`: the low 16 bits as an `int16_t`. */
  function ScoreOf(e: Entry): int { Int16(e % 0x1_0000) }

  /** `depth()`: bits 16-23. */
  function DepthOf(e: Entry): int { e / 0x1_0000 % 0x100 }

  /** `flag()`: bits 24-25. */
  function FlagOf(e: Entry): Flag { FlagOfIndex(e / 0x100_0000 % 4) }

  /** `generation()`: bits 26-31. */
  function GenerationOf(e: Entry): int { e / 0x400_0000 % 0x40 }

  /** `move_packed()`: bits 32-47. */
  function MoveCodeOf(e: Entry): int { e / 0x1_0000_0000 % 0x1_0000 }

  /** `key()`: bits 48-63. */
  function KeyOf(e: Entry): int { e / 0x1_0000_0000_0000 % 0x1_0000 }

  /** `empty()`: the depth field is 0xFF. */
  predicate IsEmpty(e: Entry) { DepthOf(e) == 0xFF }

  /** The default `TTEntry()`: `0xFF << 16`. */
  const DEFAULT_ENTRY: Entry := 0xFF_0000

  /** Euclidean division by one of the field offsets of the layout. */
  lemma Peel(x: int, lo: int, hi: int, b: int)
    requires b == 4 || b == 0x40 || b == 0x100 || b == 0x1_0000 || b == 0x100_0000 || b == 0x400_0000
          || b == 0x1_0000_0000 || b == 0x1_0000_0000_0000
    requires 0 <= lo < b && x == lo + b * hi
    ensures x / b == hi && x % b == lo
  {
    if b == 4 {
    } else if b == 0x40 {
    } else if b == 0x100 {
    } else if b == 0x1_0000 {
    } else if b == 0x100_0000 {
    } else if b == 0x400_0000 {
    } else if b == 0x1_0000_0000 {
    } else {
    }
  }

  /** Each field of the layout reads back through its shift and mask. */
  lemma LayoutFields(s: int, d: int, b: int, g: int, m: int, k: int)
    requires 0 <= s < 0x1_0000 && 0 <= d < 0x100 && 0 <= b < 4 && 0 <= g < 0x40
    requires 0 <= m < 0x1_0000 && 0 <= k < 0x1_0000
    ensures var e := Layout(s, d, b, g, m, k);
      && 0 <= e < WORD_RANGE
      && e % 0x1_0000 == s && e / 0x1_0000 % 0x100 == d && e / 0x100_0000 % 4 == b
      && e / 0x400_0000 % 0x40 == g && e / 0x1_0000_0000 % 0x1_0000 == m && e / 0x1_0000_0000_0000 % 0x1_0000 == k
  {
    var e := Layout(s, d, b, g, m, k);
    var h5 := k;
    var h4 := m + 0x1_0000 * h5;
    var h3 := g + 0x40 * h4;
    var h2 := b + 4 * h3;
    var h1 := d + 0x100 * h2;
    Peel(e, s, h1, 0x1_0000);
    Peel(h1, d, h2, 0x100);
    Peel(e, s + 0x1_0000 * d, h2, 0x100_0000);
    Peel(h2, b, h3, 4);
    Peel(e, s + 0x1_0000 * d + 0x100_0000 * b, h3, 0x400_0000);
    Peel(h3, g, h4, 0x40);
    Peel(e, s + 0x1_0000 * d + 0x100_0000 * b + 0x400_0000 * g, h4, 0x1_0000_0000);
    Peel(h4, m, h5, 0x1_0000);
    Peel(e, s + 0x1_0000 * d + 0x100_0000 * b + 0x400_0000 * g + 0x1_0000_0000 * m, h5, 0x1_0000_0000_0000);
  }

  /**
   * For arguments that fit their parameter types (an `int16_t` score, a
   * `uint8_t` depth, 16-bit move and key) the accessors return exactly the
   * arguments; only the generation loses its bits above the sixth.
   */
  lemma PackUnpack(score: int, depth: int, bound: Flag, generation: int, moveCode: int, key: int)
    requires -0x8000 <= score < 0x8000 && 0 <= depth < 0x100
    requires 0 <= moveCode < 0x1_0000 && 0 <= key < 0x1_0000
    ensures var e := Pack(score, depth, bound, generation, moveCode, key);
      && ScoreOf(e) == score && DepthOf(e) == depth && FlagOf(e) == bound
      && GenerationOf(e) == generation % 0x40 && MoveCodeOf(e) == moveCode && KeyOf(e) == key
  {
    Int16Exact(score);
    Peel(depth, depth, 0, 0x100);
    Peel(moveCode, moveCode, 0, 0x1_0000);
    Peel(key, key, 0, 0x1_0000);
  }

  /** An `int16_t` survives the trip through its 16-bit pattern. */
  lemma Int16Exact(v: int)
    requires -0x8000 <= v < 0x8000
    ensures Int16(v % 0x1_0000) == v
  {
    if v < 0 {
      assert v % 0x1_0000 == v + 0x1_0000;
    }
  }

  /** A 64-bit word is the layout of its six fields. */
  lemma UnpackLayout(e: Entry)
    ensures Layout(e % 0x1_0000, e / 0x1_0000 % 0x100, e / 0x100_0000 % 4, e / 0x400_0000 % 0x40,
                   e / 0x1_0000_0000 % 0x1_0000, e / 0x1_0000_0000_0000 % 0x1_0000) == e
  {
    var r0, q1 := e % 0x1_0000, e / 0x1_0000;
    var r1, q2 := q1 % 0x100, q1 / 0x100;
    var r2, q3 := q2 % 4, q2 / 4;
    var r3, q4 := q3 % 0x40, q3 / 0x40;
    var r4, q5 := q4 % 0x1_0000, q4 / 0x1_0000;
    assert e == r0 + 0x1_0000 * q1 && q1 == r1 + 0x100 * q2 && q2 == r2 + 4 * q3;
    assert q3 == r3 + 0x40 * q4 && q4 == r4 + 0x1_0000 * q5;
    Peel(e, r0 + 0x1_0000 * r1, q2, 0x100_0000);
    Peel(e, r0 + 0x1_0000 * r1 + 0x100_0000 * r2, q3, 0x400_0000);
    Peel(e, r0 + 0x1_0000 * r1 + 0x100_0000 * r2 + 0x400_0000 * r3, q4, 0x1_0000_0000);
    Peel(e, r0 + 0x1_0000 * r1 + 0x100_0000 * r2 + 0x400_0000 * r3 + 0x1_0000_0000 * r4, q5, 0x1_0000_0000_0000);
    Peel(q5, q5, 0, 0x1_0000);
  }

  /** Packing the six accessors of any 64-bit word gives the word back. */
  lemma UnpackPack(e: Entry)
    ensures Pack(ScoreOf(e), DepthOf(e), FlagOf(e), GenerationOf(e), MoveCodeOf(e), KeyOf(e)) == e
  {
    UnpackLayout(e);
    var b := e / 0x100_0000 % 4;
    assert FlagIndex(FlagOfIndex(b)) == b;
    Peel(DepthOf(e), DepthOf(e), 0, 0x100);
    Peel(GenerationOf(e), GenerationOf(e), 0, 0x40);
    Peel(MoveCodeOf(e), MoveCodeOf(e), 0, 0x1_0000);
    Peel(KeyOf(e), KeyOf(e), 0, 0x1_0000);
  }

  /**
   * The fields are disjoint bit ranges: two entries built from arguments
   * that agree on one field agree on that accessor, whatever the others are.
   */
  lemma PackFieldsIndependent(s1: int, d1: int, b1: Flag, g1: int, m1: int, k1: int,
                              s2: int, d2: int, b2: Flag, g2: int, m2: int, k2: int)
    ensures var e1, e2 := Pack(s1, d1, b1, g1, m1, k1), Pack(s2, d2, b2, g2, m2, k2);
      && (s1 == s2 ==> ScoreOf(e1) == ScoreOf(e2))
      && (d1 == d2 ==> DepthOf(e1) == DepthOf(e2))
      && (b1 == b2 ==> FlagOf(e1) == FlagOf(e2))
      && (g1 == g2 ==> GenerationOf(e1) == GenerationOf(e2))
      && (m1 == m2 ==> MoveCodeOf(e1) == MoveCodeOf(e2))
      && (k1 == k2 ==> KeyOf(e1) == KeyOf(e2))
  {
  }

  /** `TTEntry()` is empty, with key 0 and every other field 0. */
  lemma DefaultEntryEmpty()
    ensures IsEmpty(DEFAULT_ENTRY) && KeyOf(DEFAULT_ENTRY) == 0
    ensures ScoreOf(DEFAULT_ENTRY) == 0 && FlagOf(DEFAULT_ENTRY) == Exact
    ensures GenerationOf(DEFAULT_ENTRY) == 0 && MoveCodeOf(DEFAULT_ENTRY) == 0
  {
    var e := DEFAULT_ENTRY;
    Peel(e, 0, 0xFF, 0x1_0000);
    Peel(0xFF, 0xFF, 0, 0x100);
    Peel(e, e, 0, 0x100_0000);
    Peel(e, e, 0, 0x400_0000);
    Peel(e, e, 0, 0x1_0000_0000);
    Peel(e, e, 0, 0x1_0000_0000_0000);
    Peel(0, 0, 0, 0x40);
    Peel(0, 0, 0, 4);
    Peel(0, 0, 0, 0x1_0000);
  }

  /** An entry stored with depth 255 reads as empty, whatever else it holds. */
  lemma PackDepth255Empty(score: int, bound: Flag, generation: int, moveCode: int, key: int)
    ensures IsEmpty(Pack(score, 0xFF, bound, generation, moveCode, key))
  {
    Peel(0xFF, 0xFF, 0, 0x100);
  }

  // ---------------------------------------------------------------
  // dist_mod64_fast
  // ---------------------------------------------------------------

  /** `dist_mod64_fast(a, b)` on two `uint8_t`: `(a - b) & 63`, folded to the shorter way round. */
  function DistMod64(a: int, b: int): (d: int)
    requires 0 <= a < 0x100 && 0 <= b < 0x100
    ensures 0 <= d <= 32
  {
    var x := (a - b) % 64;
    if x <= 32 then x else 64 - x
  }

  /** The distance is the shorter of the two ways round the circle of 64. */
  lemma DistShortest(a: int, b: int)
    requires 0 <= a < 0x100 && 0 <= b < 0x100
    ensures var x, y := (a - b) % 64, (b - a) % 64;
      DistMod64(a, b) == if x <= y then x else y
  {
    var x, y := (a - b) % 64, (b - a) % 64;
    assert x == 0 <==> y == 0;
    assert x != 0 ==> x + y == 64;
  }

  /** Two numbers differ by a multiple of 64 exactly when they agree modulo 64. */
  lemma DiffMod64(a: int, b: int)
    ensures (a - b) % 64 == 0 <==> a % 64 == b % 64
  {
    var qa, qb := a / 64, b / 64;
    assert a == a % 64 + 64 * qa && b == b % 64 + 64 * qb;
    if a % 64 == b % 64 {
      Peel(a - b, 0, qa - qb, 64);
    }
    if (a - b) % 64 == 0 {
      var k := (a - b) / 64;
      assert a - b == 64 * k;
      Peel(a, b % 64, qb + k, 64);
    }
  }

  /** Symmetric, and zero exactly for generations congruent modulo 64. */
  lemma DistProperties(a: int, b: int)
    requires 0 <= a < 0x100 && 0 <= b < 0x100
    ensures DistMod64(a, b) == DistMod64(b, a)
    ensures DistMod64(a, b) == 0 <==> a % 64 == b % 64
  {
    DistShortest(a, b);
    DistShortest(b, a);
    DiffMod64(a, b);
  }

  // ---------------------------------------------------------------
  // store_tt: the flag and the slot
  // ---------------------------------------------------------------

  /** The flag `store_tt` stores for a search result. */
  function StoreFlag(bestScore: int, originalAlpha: int, beta: int, isBestTempered: bool, isAnyTempered: bool): (f: Flag)
    ensures isBestTempered ==> f == Tempered
    ensures !isBestTempered && !isAnyTempered ==>
      (f == LowerBound <==> bestScore >= beta)
      && (f == UpperBound <==> bestScore < beta && bestScore <= originalAlpha)
      && (f == Exact <==> originalAlpha < bestScore < beta)
    ensures isAnyTempered ==> f != Exact
    ensures !isBestTempered && isAnyTempered ==>
      (f == LowerBound <==> bestScore >= beta || bestScore >= originalAlpha)
      && (f == Tempered <==> bestScore < beta && bestScore < originalAlpha)
  {
    if isBestTempered then Tempered
    else if isAnyTempered then
      if bestScore >= beta then LowerBound
      else if bestScore >= originalAlpha then LowerBound
      else Tempered
    else if bestScore >= beta then LowerBound
    else if bestScore <= originalAlpha then UpperBound
    else Exact
  }

  /**
   * The first slot from `i` on whose key is `key16`, or -1: the same-key
   * loop of `store_tt`, and the key test of `probe_tt`.
   */
  function KeySlot(cluster: seq<Entry>, key16: int, i: nat): (r: int)
    requires i <= |cluster|
    ensures r == -1 || (i <= r < |cluster| && KeyOf(cluster[r]) == key16)
    ensures forall j :: i <= j < |cluster| && (r == -1 || j < r) ==> KeyOf(cluster[j]) != key16
    decreases |cluster| - i
  {
    if i == |cluster| then -1
    else if KeyOf(cluster[i]) == key16 then i
    else KeySlot(cluster, key16, i + 1)
  }

  /** The first empty slot from `i` on, or -1. */
  function EmptySlot(cluster: seq<Entry>, i: nat): (r: int)
    requires i <= |cluster|
    ensures r == -1 || (i <= r < |cluster| && IsEmpty(cluster[r]))
    ensures forall j :: i <= j < |cluster| && (r == -1 || j < r) ==> !IsEmpty(cluster[j])
    decreases |cluster| - i
  {
    if i == |cluster| then -1
    else if IsEmpty(cluster[i]) then i
    else EmptySlot(cluster, i + 1)
  }

  /** How many generations old an entry is, as `store_tt` measures it. */
  function Age(e: Entry, generation: nat): int
  {
    DistMod64(GenerationOf(e), generation % 0x100)
  }

  /**
   * The replacement loop of `store_tt` from slot `i` on, with the slot
   * chosen so far, its age and its depth (`pos_index`,
   * `max_generation_diff`, `pos_depth`).
   */
  function ReplaceFrom(cluster: seq<Entry>, depth: int, generation: nat, i: nat,
                       pos: int, maxAge: int, posDepth: int): (r: int)
    requires i <= |cluster|
    ensures r == pos || i <= r < |cluster|
    decreases |cluster| - i
  {
    if i == |cluster| then pos
    else
      var age := Age(cluster[i], generation);
      if age > maxAge then ReplaceFrom(cluster, depth, generation, i + 1, i, age, DepthOf(cluster[i]))
      else if maxAge == age && DepthOf(cluster[i]) <= posDepth then
        ReplaceFrom(cluster, depth, generation, i + 1, i, maxAge, DepthOf(cluster[i]))
      else ReplaceFrom(cluster, depth, generation, i + 1, pos, maxAge, posDepth)
  }

  /** The slot the replacement loop picks, or -1 to skip the store. */
  function Replacement(cluster: seq<Entry>, depth: int, generation: nat): (r: int)
    ensures -1 <= r < |cluster|
  {
    ReplaceFrom(cluster, depth, generation, 0, -1, 0, depth)
  }

  /**
   * The slot `store_tt` writes, or -1 when it writes none: the same-key slot
   * if there is one (written only when not deeper than the new entry), else
   * the first empty slot, else the replacement loop's choice.
   */
  function ChooseSlot(cluster: seq<Entry>, key16: int, depth: int, generation: nat): (r: int)
    ensures -1 <= r < |cluster|
  {
    var same := KeySlot(cluster, key16, 0);
    if same != -1 then (if DepthOf(cluster[same]) <= depth then same else -1)
    else
      var empty := EmptySlot(cluster, 0);
      if empty != -1 then empty else Replacement(cluster, depth, generation)
  }

  /** What the replacement loop knows after the slots before `i`. */
  ghost predicate ReplaceState(cluster: seq<Entry>, depth: int, generation: nat, i: nat,
                               pos: int, maxAge: int, posDepth: int)
    requires i <= |cluster|
  {
    && (forall j :: 0 <= j < i ==> Age(cluster[j], generation) <= maxAge)
    && (pos == -1 ==> maxAge == 0 && posDepth == depth
                      && forall j :: 0 <= j < i ==> DepthOf(cluster[j]) > depth)
    && (pos != -1 ==>
          && 0 <= pos < i && Age(cluster[pos], generation) == maxAge && DepthOf(cluster[pos]) == posDepth
          && (maxAge == 0 ==> posDepth <= depth)
          && (forall j :: 0 <= j < i && Age(cluster[j], generation) == maxAge ==> posDepth <= DepthOf(cluster[j]))
          && (forall j :: pos < j < i && Age(cluster[j], generation) == maxAge ==> posDepth < DepthOf(cluster[j])))
  }

  /** One slot of the replacement loop keeps what it knows. */
  lemma ReplaceAdvance(cluster: seq<Entry>, depth: int, generation: nat, i: nat,
                       pos: int, maxAge: int, posDepth: int)
    requires i < |cluster| && ReplaceState(cluster, depth, generation, i, pos, maxAge, posDepth)
    ensures var age, d := Age(cluster[i], generation), DepthOf(cluster[i]);
      if age > maxAge then ReplaceState(cluster, depth, generation, i + 1, i, age, d)
      else if maxAge == age && d <= posDepth then ReplaceState(cluster, depth, generation, i + 1, i, maxAge, d)
      else ReplaceState(cluster, depth, generation, i + 1, pos, maxAge, posDepth)
  {
    var age, d := Age(cluster[i], generation), DepthOf(cluster[i]);
    if age > maxAge {
      assert forall j :: 0 <= j < i + 1 ==> Age(cluster[j], generation) <= age;
    } else if maxAge == age && d <= posDepth {
      assert forall j :: 0 <= j < i + 1 && Age(cluster[j], generation) == maxAge ==> d <= DepthOf(cluster[j]);
    }
  }

  lemma {:induction false} ReplaceFromChoice(cluster: seq<Entry>, depth: int, generation: nat, i: nat,
                                             pos: int, maxAge: int, posDepth: int)
    returns (finalAge: int, finalDepth: int)
    requires i <= |cluster| && ReplaceState(cluster, depth, generation, i, pos, maxAge, posDepth)
    ensures ReplaceState(cluster, depth, generation, |cluster|,
                         ReplaceFrom(cluster, depth, generation, i, pos, maxAge, posDepth), finalAge, finalDepth)
    decreases |cluster| - i
  {
    if i == |cluster| {
      return maxAge, posDepth;
    }
    var age := Age(cluster[i], generation);
    var d := DepthOf(cluster[i]);
    ReplaceAdvance(cluster, depth, generation, i, pos, maxAge, posDepth);
    if age > maxAge {
      finalAge, finalDepth := ReplaceFromChoice(cluster, depth, generation, i + 1, i, age, d);
    } else if maxAge == age && d <= posDepth {
      finalAge, finalDepth := ReplaceFromChoice(cluster, depth, generation, i + 1, i, maxAge, d);
    } else {
      finalAge, finalDepth := ReplaceFromChoice(cluster, depth, generation, i + 1, pos, maxAge, posDepth);
    }
  }

  /**
   * The replacement choice: the store is skipped exactly when every slot is
   * of the current generation (modulo 64) and deeper than the new entry.
   * Otherwise the chosen slot is one of the oldest; among the oldest it has
   * the smallest depth, and no later oldest slot has that depth; and when
   * all are current, it is not deeper than the new entry.
   */
  lemma ReplacementChoice(cluster: seq<Entry>, depth: int, generation: nat)
    ensures var r := Replacement(cluster, depth, generation);
      && (r == -1 <==> forall j :: 0 <= j < |cluster| ==>
                         Age(cluster[j], generation) == 0 && DepthOf(cluster[j]) > depth)
      && (r != -1 ==>
            && 0 <= r < |cluster|
            && (forall j :: 0 <= j < |cluster| ==> Age(cluster[j], generation) <= Age(cluster[r], generation))
            && (forall j :: 0 <= j < |cluster| && Age(cluster[j], generation) == Age(cluster[r], generation) ==>
                  DepthOf(cluster[r]) <= DepthOf(cluster[j]))
            && (forall j :: r < j < |cluster| && Age(cluster[j], generation) == Age(cluster[r], generation) ==>
                  DepthOf(cluster[r]) < DepthOf(cluster[j]))
            && (Age(cluster[r], generation) == 0 ==> DepthOf(cluster[r]) <= depth))
  {
    var m, pd := ReplaceFromChoice(cluster, depth, generation, 0, -1, 0, depth);
  }

  /**
   * The slot choice of `store_tt`: a slot holding `key16` takes the store
   * only when its depth is at most the new depth, and no other slot does;
   * with no such slot the first empty slot takes it; with neither, the
   * replacement choice does.
   */
  lemma ChooseSlotCases(cluster: seq<Entry>, key16: int, depth: int, generation: nat)
    ensures var r := ChooseSlot(cluster, key16, depth, generation);
      && (r == -1 || 0 <= r < |cluster|)
      && ((exists j :: 0 <= j < |cluster| && KeyOf(cluster[j]) == key16) ==>
            var j := KeySlot(cluster, key16, 0);
            r == (if DepthOf(cluster[j]) <= depth then j else -1))
      && ((forall j :: 0 <= j < |cluster| ==> KeyOf(cluster[j]) != key16)
          && (exists j :: 0 <= j < |cluster| && IsEmpty(cluster[j])) ==>
            0 <= r < |cluster| && IsEmpty(cluster[r]) && forall j :: 0 <= j < r ==> !IsEmpty(cluster[j]))
      && ((forall j :: 0 <= j < |cluster| ==> KeyOf(cluster[j]) != key16 && !IsEmpty(cluster[j])) ==>
            r == Replacement(cluster, depth, generation))
  {
    ReplacementChoice(cluster, depth, generation);
  }

  // ---------------------------------------------------------------
  // probe_tt
  // ---------------------------------------------------------------

  /** The result of `probe_tt` and its two out-parameters. */
  datatype Probed = Probed(hit: bool, score: int, move: Move)

  /**
   * The loop of `probe_tt` from slot `i` on, with the window as the earlier
   * bound entries left it and the out-parameters as last written.
   * `recover` is `recover_move_from_int`.
   */
  function ProbeFrom(cluster: seq<Entry>, key: int, depth: int, recover: int -> Move, i: nat,
                     alpha: int, beta: int, score: int, move: Move): (r: Probed)
    requires i <= |cluster|
    decreases |cluster| - i
  {
    if i == |cluster| then Probed(false, score, move)
    else
      var e := cluster[i];
      if KeyOf(e) != key then ProbeFrom(cluster, key, depth, recover, i + 1, alpha, beta, score, move)
      else
        var m := recover(MoveCodeOf(e));
        var s := ScoreOf(e);
        if DepthOf(e) < depth then Probed(false, s, m)
        else if FlagOf(e) == Tempered then Probed(false, s, m)
        else if FlagOf(e) == Exact then Probed(m.from != -1, s, m)
        else
          var a := if FlagOf(e) == LowerBound then (if alpha >= s then alpha else s) else alpha;
          var b := if FlagOf(e) == UpperBound then (if beta <= s then beta else s) else beta;
          if a >= b then Probed(m.from != -1, s, m)
          else if beta - alpha > 1 then ProbeFrom(cluster, key, depth, recover, i + 1, a, b, s, m)
          else ProbeFrom(cluster, key, depth, recover, i + 1, alpha, beta, s, m)
  }

  /**
   * `probe_tt` on one cluster with the key `hash >> 48`, the window
   * (`alpha`, `beta`) and the caller's out-parameters `score0`, `move0`.
   */
  function Probe(cluster: seq<Entry>, key: int, depth: int, alpha: int, beta: int,
                 recover: int -> Move, score0: int, move0: Move): (r: Probed)
    ensures (forall j :: 0 <= j < |cluster| ==> KeyOf(cluster[j]) != key) ==> r == Probed(false, score0, move0)
    ensures r.hit ==> exists j :: 0 <= j < |cluster| && KeyOf(cluster[j]) == key && DepthOf(cluster[j]) >= depth
                        && FlagOf(cluster[j]) != Tempered && r.move.from != -1
  {
    ProbeHitSound(cluster, key, depth, recover, 0, alpha, beta, score0, move0);
    if forall j :: 0 <= j < |cluster| ==> KeyOf(cluster[j]) != key then
      ProbeNoKey(cluster, key, depth, recover, 0, alpha, beta, score0, move0);
      ProbeFrom(cluster, key, depth, recover, 0, alpha, beta, score0, move0)
    else
      ProbeFrom(cluster, key, depth, recover, 0, alpha, beta, score0, move0)
  }

  /** With no entry of the key, the probe misses and leaves the out-parameters alone. */
  lemma {:induction false} ProbeNoKey(cluster: seq<Entry>, key: int, depth: int, recover: int -> Move, i: nat,
                                      alpha: int, beta: int, score: int, move: Move)
    requires i <= |cluster| && forall j :: i <= j < |cluster| ==> KeyOf(cluster[j]) != key
    ensures ProbeFrom(cluster, key, depth, recover, i, alpha, beta, score, move) == Probed(false, score, move)
    decreases |cluster| - i
  {
    if i < |cluster| {
      ProbeNoKey(cluster, key, depth, recover, i + 1, alpha, beta, score, move);
    }
  }

  /** Entries of other keys before `i` are passed over. */
  lemma {:induction false} ProbeSkips(cluster: seq<Entry>, key: int, depth: int, recover: int -> Move, i: nat, k: nat,
                                      alpha: int, beta: int, score: int, move: Move)
    requires i <= k <= |cluster| && forall j :: i <= j < k ==> KeyOf(cluster[j]) != key
    ensures ProbeFrom(cluster, key, depth, recover, i, alpha, beta, score, move)
         == ProbeFrom(cluster, key, depth, recover, k, alpha, beta, score, move)
    decreases k - i
  {
    if i < k {
      ProbeSkips(cluster, key, depth, recover, i + 1, k, alpha, beta, score, move);
    }
  }

  /**
   * At the first entry of the key, the out-parameters take its move and
   * score, and the probe fails when the entry is shallower than `depth` or
   * tempered; an exact entry hits exactly when its move is not null; a
   * lower bound at or above `beta`, or an upper bound at or below `alpha`,
   * hits exactly when its move is not null.
   */
  lemma ProbeFirstEntry(cluster: seq<Entry>, key: int, depth: int, alpha: int, beta: int,
                        recover: int -> Move, score0: int, move0: Move)
    requires KeySlot(cluster, key, 0) != -1
    ensures var e := cluster[KeySlot(cluster, key, 0)];
      var m := recover(MoveCodeOf(e));
      var r := Probe(cluster, key, depth, alpha, beta, recover, score0, move0);
      && (DepthOf(e) < depth ==> r == Probed(false, ScoreOf(e), m))
      && (DepthOf(e) >= depth && FlagOf(e) == Tempered ==> r == Probed(false, ScoreOf(e), m))
      && (DepthOf(e) >= depth && FlagOf(e) == Exact ==> r == Probed(m.from != -1, ScoreOf(e), m))
      && (DepthOf(e) >= depth && FlagOf(e) == LowerBound && ScoreOf(e) >= beta ==> r == Probed(m.from != -1, ScoreOf(e), m))
      && (DepthOf(e) >= depth && FlagOf(e) == UpperBound && ScoreOf(e) <= alpha ==> r == Probed(m.from != -1, ScoreOf(e), m))
  {
    ProbeSkips(cluster, key, depth, recover, 0, KeySlot(cluster, key, 0), alpha, beta, score0, move0);
  }

  /**
   * A hit comes from an entry of the key that is deep enough, not tempered
   * and holds a move that is not null; the out-parameters hold that entry's
   * score and move.
   */
  lemma {:induction false} ProbeHitSound(cluster: seq<Entry>, key: int, depth: int, recover: int -> Move, i: nat,
                                         alpha: int, beta: int, score: int, move: Move)
    requires i <= |cluster|
    ensures var r := ProbeFrom(cluster, key, depth, recover, i, alpha, beta, score, move);
      r.hit ==> exists j :: i <= j < |cluster| && KeyOf(cluster[j]) == key && DepthOf(cluster[j]) >= depth
                 && FlagOf(cluster[j]) != Tempered && r.move == recover(MoveCodeOf(cluster[j]))
                 && r.move.from != -1 && r.score == ScoreOf(cluster[j])
    decreases |cluster| - i
  {
    if i < |cluster| {
      var e := cluster[i];
      var s := ScoreOf(e);
      var m := recover(MoveCodeOf(e));
      if KeyOf(e) != key {
        ProbeHitSound(cluster, key, depth, recover, i + 1, alpha, beta, score, move);
      } else if DepthOf(e) >= depth && FlagOf(e) != Tempered && FlagOf(e) != Exact {
        var a := if FlagOf(e) == LowerBound then (if alpha >= s then alpha else s) else alpha;
        var b := if FlagOf(e) == UpperBound then (if beta <= s then beta else s) else beta;
        ProbeHitSound(cluster, key, depth, recover, i + 1, a, b, s, m);
        ProbeHitSound(cluster, key, depth, recover, i + 1, alpha, beta, s, m);
      }
    }
  }

  /** The loop of `probe_tt` over one cluster. */
  method ProbeCluster(cluster: seq<Entry>, key: int, depth: int, alpha: int, beta: int,
                      recover: int -> Move, score0: int, move0: Move)
    returns (hit: bool, outScore: int, outMove: Move)
    requires |cluster| == 4
    ensures Probed(hit, outScore, outMove) == Probe(cluster, key, depth, alpha, beta, recover, score0, move0)
  {
    ghost var goal := Probe(cluster, key, depth, alpha, beta, recover, score0, move0);
    outScore, outMove := score0, move0;
    var lo, hi := alpha, beta;
    var i := 0;
    while i < 4
      invariant 0 <= i <= 4
      invariant ProbeFrom(cluster, key, depth, recover, i, lo, hi, outScore, outMove) == goal
    {
      var entry := cluster[i];
      if KeyOf(entry) != key {
        i := i + 1;
        continue;
      }
      outMove := recover(MoveCodeOf(entry));
      outScore := ScoreOf(entry);
      if DepthOf(entry) < depth {
        return false, outScore, outMove;
      }
      if FlagOf(entry) == Tempered {
        return false, outScore, outMove;
      }
      var score := ScoreOf(entry);
      var a, b := lo, hi;
      if FlagOf(entry) == Exact {
        if outMove.from == -1 {
          return false, outScore, outMove;
        }
        return true, outScore, outMove;
      }
      if FlagOf(entry) == LowerBound {
        a := if a >= score then a else score;
      }
      if FlagOf(entry) == UpperBound {
        b := if b <= score then b else score;
      }
      if hi - lo > 1 {
        lo := a;
        hi := b;
      }
      if a >= b {
        if outMove.from == -1 {
          return false, outScore, outMove;
        }
        return true, outScore, outMove;
      }
      i := i + 1;
    }
    return false, outScore, outMove;
  }

  /** `clusters = tt_size_mb * 1024 * 1024 / sizeof(TTCluster)`, at least 1; a cluster is 32 bytes. */
  function ClusterCount(mb: nat): (n: nat)
    ensures n == if mb == 0 then 1 else mb * 0x8000
  {
    var bytes := mb * 1024 * 1024;
    assert bytes == 32 * (mb * 0x8000);
    var clusters := bytes / 32;
    if clusters == 0 then 1 else clusters
  }

  /** The key the entry of the store is tagged with, `hash >> 48`. */
  function EntryKey(hash: int): int
    requires 0 <= hash < WORD_RANGE
  {
    hash / 0x1_0000_0000_0000
  }

  /** The three slot loops of `store_tt` over one cluster: the slot to write, or -1 for none. */
  method FindSlot(cluster: seq<Entry>, key16: int, depth: int, generation: nat) returns (slot: int)
    requires |cluster| == 4
    ensures slot == ChooseSlot(cluster, key16, depth, generation)
  {
    var i := 0;
    while i < 4
      invariant 0 <= i <= 4 && KeySlot(cluster, key16, i) == KeySlot(cluster, key16, 0)
    {
      if KeyOf(cluster[i]) == key16 {
        if DepthOf(cluster[i]) <= depth {
          return i;
        }
        return -1;
      }
      i := i + 1;
    }
    i := 0;
    while i < 4
      invariant 0 <= i <= 4 && EmptySlot(cluster, i) == EmptySlot(cluster, 0)
    {
      if IsEmpty(cluster[i]) {
        return i;
      }
      i := i + 1;
    }
    var posIndex, maxAge, posDepth := -1, 0, depth;
    i := 0;
    while i < 4
      invariant 0 <= i <= 4
      invariant ReplaceFrom(cluster, depth, generation, i, posIndex, maxAge, posDepth) == Replacement(cluster, depth, generation)
    {
      var currAge := Age(cluster[i], generation);
      if currAge > maxAge {
        posIndex, maxAge, posDepth := i, currAge, DepthOf(cluster[i]);
      } else if maxAge == currAge && DepthOf(cluster[i]) <= posDepth {
        posIndex, posDepth := i, DepthOf(cluster[i]);
      }
      i := i + 1;
    }
    slot := posIndex;
  }

  /**
   * The table part of `Engine`: `tt`, four entries per cluster laid out one
   * cluster after another, and the search `generation`.
   */
  class Table {
    var slots: array<Entry>
    var generation: nat

    ghost predicate Valid()
      reads this
    {
      slots.Length >= 4 && slots.Length % 4 == 0
    }

    /** `tt.size()`. */
    function Size(): (n: nat)
      reads this
      requires Valid()
      ensures n >= 1 && 4 * n == slots.Length
    {
      slots.Length / 4
    }

    /** The first slot of cluster `hash % tt.size()`. */
    function Base(hash: nat): (b: nat)
      reads this
      requires Valid()
      ensures b + 4 <= slots.Length && b % 4 == 0
    {
      4 * (hash % Size())
    }

    /** The four entries of the cluster of `hash`. */
    function Cluster(hash: nat): (c: seq<Entry>)
      reads this, slots
      requires Valid()
      ensures |c| == 4
    {
      slots[Base(hash)..Base(hash) + 4]
    }

    /** `Engine(tt_size_mb)`: `init_tt` sizes an empty table; every entry is `TTEntry()`. */
    constructor (mb: nat)
      ensures Valid() && fresh(slots) && Size() == ClusterCount(mb) && generation == 0
      ensures forall i :: 0 <= i < slots.Length ==> slots[i] == DEFAULT_ENTRY
    {
      var clusters := ClusterCount(mb);
      slots := new Entry[4 * clusters](_ => DEFAULT_ENTRY);
      generation := 0;
    }

    /** `generation++` at the start of a search. */
    method NextGeneration()
      modifies this
      ensures slots == old(slots) && generation == old(generation) + 1
    {
      generation := generation + 1;
    }

    /**
     * `probe_tt`: the cluster of `hash % tt.size()` probed with the key
     * `hash >> 48`. The table does not change.
     */
    method ProbeTT(hash: nat, depth: int, alpha: int, beta: int, recover: int -> Move, score0: int, move0: Move)
      returns (hit: bool, outScore: int, outMove: Move)
      requires Valid() && hash < WORD_RANGE
      ensures Probed(hit, outScore, outMove) == Probe(Cluster(hash), EntryKey(hash), depth, alpha, beta, recover, score0, move0)
    {
      var base := 4 * (hash % (slots.Length / 4));
      hit, outScore, outMove := ProbeCluster(slots[base..base + 4], hash / 0x1_0000_0000_0000, depth, alpha, beta, recover, score0, move0);
    }

    /**
     * `store_tt`: the entry of the result is written into the slot that
     * `ChooseSlot` picks in the cluster of `hash` (its same-key test uses
     * `uint16_t(hash)`, the low 16 bits), or nowhere; every other slot keeps
     * its entry. The result is whether the best line was tempered.
     */
    method StoreTT(hash: nat, depth: int, originalAlpha: int, beta: int, bestScore: int, bestMove: Move,
                   isBestTempered: bool, isAnyTempered: bool) returns (scoreTempered: bool)
      requires Valid() && hash < WORD_RANGE
      modifies slots
      ensures scoreTempered == isBestTempered
      ensures var base := Base(hash);
        var slot := ChooseSlot(old(slots[Base(hash)..Base(hash) + 4]), hash % 0x1_0000, depth, generation);
        var entry := Pack(bestScore, depth, StoreFlag(bestScore, originalAlpha, beta, isBestTempered, isAnyTempered),
                          generation, GetInt(bestMove), EntryKey(hash));
        slots[..] == if slot == -1 then old(slots[..]) else old(slots[..])[base + slot := entry]
    {
      scoreTempered := isBestTempered;
      var flag := StoreFlag(bestScore, originalAlpha, beta, isBestTempered, isAnyTempered);
      var entry := Pack(bestScore, depth, flag, generation, GetInt(bestMove), hash / 0x1_0000_0000_0000);
      var base := 4 * (hash % (slots.Length / 4));
      var slot := FindSlot(slots[base..base + 4], hash % 0x1_0000, depth, generation);
      if slot != -1 {
        slots[base + slot] := entry;
      }
    }
  }

  /** A store writes only inside the cluster of its hash, and at most one slot there. */
  lemma StoreTouchesOneSlot(before: seq<Entry>, base: nat, slot: int, entry: Entry, after: seq<Entry>)
    requires base + 4 <= |before| && -1 <= slot < 4
    requires after == if slot == -1 then before else before[base + slot := entry]
    ensures |after| == |before|
    ensures forall i :: 0 <= i < |before| && (i < base || i >= base + 4) ==> after[i] == before[i]
    ensures forall i, j :: base <= i < j < base + 4 && after[i] != before[i] ==> after[j] == before[j]
  {
  }
}
