// Zobrist hashing (include/zobrist.h) and the XOR-toggle algebra that
// `make_move` / `undo_move` in src/board.cpp rely on.
//
// A `uint64_t` key or hash is written as the set of its one bits, the same
// representation as a bitboard, so `^` is `Xor`. The keys are produced by a
// Mersenne-Twister at start-up; here they are arbitrary values carried in a
// `Keys` record.
module Zobrist {
  import opened Bits
  import opened Pieces

  /** A 64-bit word: the positions of its one bits. */
  type Word = Bitboard

  /**
   * `Zobrist::piece_keys[color][piece][square]`, `black_to_move_key`,
   * `castling_keys[0..3]` (K, Q, k, q) and `en_passant_keys[file]`.
   */
  datatype Keys = Keys(
    piece: (int, int, Square) -> Word,
    blackToMove: Word,
    castling: Right -> Word,
    enPassant: int -> Word)

  /** The XOR of `key(sq)` over the squares `sq >= i` of `b`. */
  function XorFrom(b: Bitboard, key: Square -> Word, i: int): Word
    requires 0 <= i <= 64
    decreases 64 - i
  {
    if i == 64 then {}
    else if i in b then Xor(key(i), XorFrom(b, key, i + 1))
    else XorFrom(b, key, i + 1)
  }

  /** The XOR of `key(sq)` over the squares of `b`. */
  function XorOf(b: Bitboard, key: Square -> Word): Word
  {
    XorFrom(b, key, 0)
  }

  /** The empty bitboard contributes nothing. */
  lemma {:induction false} XorFromEmpty(key: Square -> Word, i: int)
    requires 0 <= i <= 64
    ensures XorFrom({}, key, i) == {}
    decreases 64 - i
  {
    if i < 64 {
      XorFromEmpty(key, i + 1);
    }
  }

  lemma XorAssoc(a: Word, b: Word, c: Word)
    ensures Xor(a, Xor(b, c)) == Xor(Xor(a, b), c)
  {
    assert forall sq: Square :: sq in Xor(a, Xor(b, c)) <==> sq in Xor(Xor(a, b), c);
  }

  lemma XorComm(a: Word, b: Word)
    ensures Xor(a, b) == Xor(b, a)
  {
    assert forall sq: Square :: sq in Xor(a, b) <==> sq in Xor(b, a);
  }

  lemma XorCancel(a: Word, k: Word)
    ensures Xor(Xor(k, a), k) == a && Xor(Xor(a, k), k) == a && Xor(k, Xor(k, a)) == a
  {
    assert forall sq: Square :: sq in Xor(Xor(k, a), k) <==> sq in a;
    assert forall sq: Square :: sq in Xor(Xor(a, k), k) <==> sq in a;
    assert forall sq: Square :: sq in Xor(k, Xor(k, a)) <==> sq in a;
  }

  lemma XorZero(a: Word)
    ensures Xor(a, {}) == a && Xor({}, a) == a
  {
    assert forall sq: Square :: sq in Xor(a, {}) <==> sq in a;
    assert forall sq: Square :: sq in Xor({}, a) <==> sq in a;
  }

  lemma {:induction false} XorFromToggle(b: Bitboard, key: Square -> Word, x: Square, i: int)
    requires 0 <= i <= 64
    ensures i <= x ==> XorFrom(Toggle(b, x), key, i) == Xor(XorFrom(b, key, i), key(x))
    ensures x < i ==> XorFrom(Toggle(b, x), key, i) == XorFrom(b, key, i)
    decreases 64 - i
  {
    if i < 64 {
      XorFromToggle(b, key, x, i + 1);
      var t := Toggle(b, x);
      var r := XorFrom(b, key, i + 1);
      if i < x {
        if i in b {
          assert XorFrom(t, key, i) == Xor(key(i), Xor(r, key(x)));
          XorAssoc(key(i), r, key(x));
        }
      } else if i == x {
        if x in b {
          assert XorFrom(t, key, i) == r;
          XorCancel(r, key(x));
        } else {
          assert XorFrom(t, key, i) == Xor(key(x), r);
          XorComm(key(x), r);
        }
      }
    }
  }

  /** Toggling a square XORs its key into the hash of the bitboard. */
  lemma XorOfToggle(b: Bitboard, key: Square -> Word, x: Square)
    ensures XorOf(Toggle(b, x), key) == Xor(XorOf(b, key), key(x))
  {
    XorFromToggle(b, key, x, 0);
  }

  /** Splitting off one square, as the `get_lsb` / `b &= b - 1` loops do. */
  lemma XorOfRemove(b: Bitboard, key: Square -> Word, x: Square)
    requires x in b
    ensures XorOf(b, key) == Xor(key(x), XorOf(b - {x}, key))
  {
    assert Toggle(b, x) == b - {x};
    XorOfToggle(b, key, x);
    XorCancel(XorOf(b, key), key(x));
    XorComm(key(x), XorOf(b - {x}, key));
  }

  // ---------------------------------------------------------------
  // Lists of single-square toggles, `board[k] ^= 1ULL << sq`
  // ---------------------------------------------------------------

  /** One toggle of square `sq` in board number `board`. */
  datatype Flip = Flip(board: int, sq: Square)

  predicate FlipsFit(ops: seq<Flip>, n: int)
  {
    forall i :: 0 <= i < |ops| ==> 0 <= ops[i].board < n
  }

  /** Apply the toggles in order to a row of bitboards. */
  function ApplyFlips(boards: seq<Bitboard>, ops: seq<Flip>): (r: seq<Bitboard>)
    requires FlipsFit(ops, |boards|)
    ensures |r| == |boards|
    decreases |ops|
  {
    if ops == [] then boards
    else
      var o := ops[|ops| - 1];
      var p := ApplyFlips(boards, ops[..|ops| - 1]);
      p[o.board := Toggle(p[o.board], o.sq)]
  }

  /** `n` empty bitboards. */
  function EmptyBoards(n: nat): (r: seq<Bitboard>)
    ensures |r| == n && forall k :: 0 <= k < n ==> r[k] == {}
  {
    seq(n, _ => {})
  }

  /** The net effect of a toggle list: the squares toggled an odd number of times. */
  function FlipDelta(n: nat, ops: seq<Flip>): (d: seq<Bitboard>)
    requires FlipsFit(ops, n)
    ensures |d| == n
  {
    ApplyFlips(EmptyBoards(n), ops)
  }

  /** A toggle list acts on each board as an XOR with its net effect. */
  lemma {:induction false} ApplyFlipsIsXor(boards: seq<Bitboard>, ops: seq<Flip>)
    requires FlipsFit(ops, |boards|)
    ensures forall k :: 0 <= k < |boards| ==>
              ApplyFlips(boards, ops)[k] == Xor(boards[k], FlipDelta(|boards|, ops)[k])
    decreases |ops|
  {
    var n := |boards|;
    if ops == [] {
      forall k | 0 <= k < n ensures boards[k] == Xor(boards[k], {}) {
        assert forall x: Square :: x in boards[k] <==> x in Xor(boards[k], {});
      }
    } else {
      var init := ops[..|ops| - 1];
      assert FlipsFit(init, n);
      ApplyFlipsIsXor(boards, init);
      var o := ops[|ops| - 1];
      var p := ApplyFlips(boards, init);
      var d := FlipDelta(n, init);
      forall k | 0 <= k < n
        ensures ApplyFlips(boards, ops)[k] == Xor(boards[k], FlipDelta(n, ops)[k])
      {
        if k == o.board {
          var lhs := Toggle(p[k], o.sq);
          var rhs := Xor(boards[k], Toggle(d[k], o.sq));
          assert forall x: Square :: x in lhs <==> x in rhs;
          assert lhs == rhs;
        }
      }
    }
  }

  /** Applying the same toggle list twice changes nothing. */
  lemma ApplyFlipsTwice(boards: seq<Bitboard>, ops: seq<Flip>)
    requires FlipsFit(ops, |boards|)
    ensures ApplyFlips(ApplyFlips(boards, ops), ops) == boards
  {
    var n := |boards|;
    var once := ApplyFlips(boards, ops);
    ApplyFlipsIsXor(boards, ops);
    ApplyFlipsIsXor(once, ops);
    var d := FlipDelta(n, ops);
    forall k | 0 <= k < n ensures ApplyFlips(once, ops)[k] == boards[k] {
      assert forall x: Square :: x in Xor(Xor(boards[k], d[k]), d[k]) <==> x in boards[k];
      assert Xor(Xor(boards[k], d[k]), d[k]) == boards[k];
    }
  }

  /** Exactly the boards named in the list can change. */
  lemma {:induction false} ApplyFlipsUntouched(boards: seq<Bitboard>, ops: seq<Flip>, k: int)
    requires FlipsFit(ops, |boards|) && 0 <= k < |boards|
    requires forall i :: 0 <= i < |ops| ==> ops[i].board != k
    ensures ApplyFlips(boards, ops)[k] == boards[k]
    decreases |ops|
  {
    if ops != [] {
      ApplyFlipsUntouched(boards, ops[..|ops| - 1], k);
    }
  }

  // ---------------------------------------------------------------
  // Hash of a row of piece boards
  // ---------------------------------------------------------------

  /** The key function of board `k` in the 2x6 layout `color * 6 + piece`. */
  function BoardKey(keys: Keys, k: int): Square -> Word
  {
    (sq: Square) => keys.piece(k / 6, k % 6, sq)
  }

  /** XOR of the piece keys of the boards `0 .. n - 1`. */
  function BoardsHash(keys: Keys, boards: seq<Bitboard>, n: int): Word
    requires 0 <= n <= |boards|
  {
    if n == 0 then {} else Xor(BoardsHash(keys, boards, n - 1), XorOf(boards[n - 1], BoardKey(keys, n - 1)))
  }

  /** The piece keys a toggle list XORs into the hash, in order. */
  function FlipKeys(keys: Keys, h: Word, ops: seq<Flip>): Word
    decreases |ops|
  {
    if ops == [] then h
    else Xor(FlipKeys(keys, h, ops[..|ops| - 1]), BoardKey(keys, ops[|ops| - 1].board)(ops[|ops| - 1].sq))
  }

  lemma {:induction false} BoardsHashToggle(keys: Keys, boards: seq<Bitboard>, k: int, x: Square, n: int)
    requires 0 <= k < |boards| && 0 <= n <= |boards|
    ensures k < n ==> BoardsHash(keys, boards[k := Toggle(boards[k], x)], n) ==
                      Xor(BoardsHash(keys, boards, n), BoardKey(keys, k)(x))
    ensures n <= k ==> BoardsHash(keys, boards[k := Toggle(boards[k], x)], n) == BoardsHash(keys, boards, n)
  {
    if n > 0 {
      BoardsHashToggle(keys, boards, k, x, n - 1);
      var t := boards[k := Toggle(boards[k], x)];
      var kx := BoardKey(keys, k)(x);
      var prev := BoardsHash(keys, boards, n - 1);
      var last := XorOf(boards[n - 1], BoardKey(keys, n - 1));
      if k == n - 1 {
        XorOfToggle(boards[k], BoardKey(keys, k), x);
        assert BoardsHash(keys, t, n) == Xor(prev, Xor(last, kx));
        XorAssoc(prev, last, kx);
      } else if k < n - 1 {
        assert BoardsHash(keys, t, n) == Xor(Xor(prev, kx), last);
        XorAssoc(prev, kx, last);
        XorComm(kx, last);
        XorAssoc(prev, last, kx);
      }
    }
  }

  /** The hash of toggled boards is the old hash with the keys of the toggles XORed in. */
  lemma {:induction false} BoardsHashFlips(keys: Keys, boards: seq<Bitboard>, ops: seq<Flip>)
    requires FlipsFit(ops, |boards|)
    ensures BoardsHash(keys, ApplyFlips(boards, ops), |boards|) == FlipKeys(keys, BoardsHash(keys, boards, |boards|), ops)
    decreases |ops|
  {
    if ops != [] {
      var init := ops[..|ops| - 1];
      assert FlipsFit(init, |boards|);
      BoardsHashFlips(keys, boards, init);
      var o := ops[|ops| - 1];
      var p := ApplyFlips(boards, init);
      BoardsHashToggle(keys, p, o.board, o.sq, |boards|);
    }
  }
}
