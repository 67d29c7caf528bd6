// The set-up steps of the `Board(fen)` constructor in src/board.cpp that
// loop over the board's arrays: `parse_fen_pieces`, `initialize_board`,
// `initialize_hash` and `initialize_material_score`. Each works on the arrays
// it is given, and is proved against the value model of Fen and Position; the
// `Board` class (board.dfy) calls them on its own arrays.
module BoardSetup {
  import opened Bits
  import opened Pieces
  import opened Zobrist
  import opened Position
  import Fen

  /** `pieces[c][p] == pb[c * 6 + p]` for every colour and piece. */
  ghost predicate Holds(pieces: array2<Bitboard>, pb: seq<Bitboard>)
    reads pieces
  {
    pieces.Length0 == 2 && pieces.Length1 == 6 && |pb| == 12
    && forall c, p :: 0 <= c < 2 && 0 <= p < 6 ==> pieces[c, p] == pb[c * 6 + p]
  }

  /** `std::fill(square_to_piece_map, '.')`. */
  method FillMap(pieceMap: array<char>)
    modifies pieceMap
    ensures pieceMap[..] == seq(pieceMap.Length, _ => '.')
  {
    var i := 0;
    while i < pieceMap.Length
      invariant 0 <= i <= pieceMap.Length
      invariant forall j :: 0 <= j < i ==> pieceMap[j] == '.'
    {
      pieceMap[i] := '.';
      i := i + 1;
    }
  }

  /**
   * `parse_fen_pieces` on the board's arrays, which start out empty. `ok` is
   * false exactly where the value model of the placement fails (an unknown
   * letter, '.', a square off the board); otherwise the arrays hold the
   * boards and the map that model builds.
   */
  method PlacePieces(pieces: array2<Bitboard>, pieceMap: array<char>, data: string) returns (ok: bool, ghost boards: seq<Bitboard>)
    requires Holds(pieces, seq(12, _ => {})) && pieceMap.Length == 64
    modifies pieces, pieceMap
    ensures ok <==> Fen.PlaceAll(Fen.StartPlacement(), data).Some?
    ensures ok ==> Holds(pieces, boards) && var pl := Fen.PlaceAll(Fen.StartPlacement(), data).value;
                   boards == pl.boards && pieceMap[..] == pl.squares
  {
    FillMap(pieceMap);
    var rank, file := 7, 0;
    boards := seq(12, _ => {});
    var i := 0;
    while i < |data|
      invariant 0 <= i <= |data| && pieceMap.Length == 64
      invariant Holds(pieces, boards)
      invariant Fen.PlaceAll(Fen.StartPlacement(), data[..i]) == Some(Fen.Placement(rank, file, boards, pieceMap[..]))
    {
      Fen.PlaceAllStep(Fen.StartPlacement(), data, i);
      var c := data[i];
      if c == '/' {
        rank := rank - 1;
        file := 0;
      } else if Fen.IsDigit(c) {
        file := file + (c as int - '0' as int);
      } else {
        var placed, next := PlaceLetter(pieces, pieceMap, boards, pieceMap[..], rank, file, c);
        if !placed {
          Fen.PlaceAllFails(Fen.StartPlacement(), data, i + 1);
          return false, boards;
        }
        boards := next;
        file := file + 1;
      }
      i := i + 1;
    }
    assert data[..i] == data;
    return true, boards;
  }

  /**
   * The letter branch of `parse_fen_pieces`: the bit of `rank * 8 + file` in
   * the letter's board and the letter in the map, or `None` where the model of
   * the placement fails.
   */
  method PlaceLetter(pieces: array2<Bitboard>, pieceMap: array<char>, ghost boards: seq<Bitboard>,
                     ghost squares: seq<char>, rank: int, file: int, c: char)
    returns (placed: bool, ghost next: seq<Bitboard>)
    requires Holds(pieces, boards) && pieceMap.Length == 64 && pieceMap[..] == squares
    requires c != '/' && !Fen.IsDigit(c)
    modifies pieces, pieceMap
    ensures placed <==> Fen.PlaceChar(Fen.Placement(rank, file, boards, squares), c).Some?
    ensures placed ==> Holds(pieces, next)
    ensures placed ==> Fen.PlaceChar(Fen.Placement(rank, file, boards, squares), c)
                       == Some(Fen.Placement(rank, file + 1, next, pieceMap[..]))
  {
    var squareIndex := rank * 8 + file;
    var known, colorIndex, pieceIndex := LetterIndex(c);
    if !known || !(0 <= squareIndex < 64) {
      Fen.PlaceLetterNone(Fen.Placement(rank, file, boards, squares), c);
      return false, boards;
    }
    Fen.PlaceLetterSome(Fen.Placement(rank, file, boards, squares), c, colorIndex * 6 + pieceIndex, squareIndex);
    next := AddBit(pieces, boards, colorIndex, pieceIndex, squareIndex);
    SetSquare(pieceMap, squares, squareIndex, c);
    placed := true;
  }

  /**
   * `color_index` and `to_int(PIECE_TYPE_MAP.at(toupper(c)))`; `known` is
   * false where the lookup finds no piece board (an unknown letter, or '.').
   */
  method LetterIndex(c: char) returns (known: bool, colorIndex: int, pieceIndex: int)
    ensures known <==> Fen.LetterBoard(c).Some?
    ensures known ==> 0 <= colorIndex < 2 && 0 <= pieceIndex < 6
                      && Fen.LetterBoard(c) == Some(colorIndex * 6 + pieceIndex)
  {
    colorIndex := if IsUpper(c) then 0 else 1;
    var piece := PieceTypeOf(ToUpper(c));
    Fen.LetterBoardCases(c);
    if piece.None? || piece.value == NoPiece {
      return false, colorIndex, 0;
    }
    known, pieceIndex := true, PieceIndex(piece.value);
  }

  /** `pieces[color][piece] |= 1ULL << sq`. */
  method AddBit(pieces: array2<Bitboard>, ghost boards: seq<Bitboard>, color: int, piece: int, sq: Square)
    returns (ghost next: seq<Bitboard>)
    requires Holds(pieces, boards) && 0 <= color < 2 && 0 <= piece < 6
    modifies pieces
    ensures Holds(pieces, next)
    ensures next == boards[color * 6 + piece := boards[color * 6 + piece] + {sq}]
  {
    pieces[color, piece] := pieces[color, piece] + {sq};
    next := boards[color * 6 + piece := boards[color * 6 + piece] + {sq}];
  }

  /** `square_to_piece_map[sq] = c`. */
  method SetSquare(pieceMap: array<char>, ghost squares: seq<char>, sq: int, c: char)
    requires pieceMap[..] == squares && 0 <= sq < pieceMap.Length
    modifies pieceMap
    ensures pieceMap[..] == squares[sq := c]
  {
    pieceMap[sq] := c;
  }

  /** The loop of `initialize_board`: each colour board ORs in its six piece boards. */
  method UnionLoop(pieces: array2<Bitboard>, ghost pb: seq<Bitboard>) returns (white: Bitboard, black: Bitboard)
    requires Holds(pieces, pb)
    ensures white == UnionOf(pb, 0, 6) && black == UnionOf(pb, 1, 6)
  {
    white, black := {}, {};
    var piece := 0;
    while piece < 6
      invariant 0 <= piece <= 6
      invariant white == UnionOf(pb, 0, piece) && black == UnionOf(pb, 1, piece)
    {
      white := white + pieces[0, piece];
      black := black + pieces[1, piece];
      piece := piece + 1;
    }
  }

  /**
   * The inner `get_lsb` / `b &= b - 1` loop of `initialize_hash`: the keys of
   * the bits of one board, `key` being `piece_keys[color][piece]`.
   */
  method HashBits(key: Square -> Word, bitboard: Bitboard, h: Word) returns (r: Word)
    ensures r == Xor(h, XorOf(bitboard, key))
  {
    var b := bitboard;
    r := h;
    while b != {}
      invariant Xor(r, XorOf(b, key)) == Xor(h, XorOf(bitboard, key))
      decreases |b|
    {
      var squareIndex := Lsb(b);
      HashBitStep(r, b, key, squareIndex);
      r := Xor(r, key(squareIndex));
      b := b - {squareIndex};
    }
    XorFromEmpty(key, 0);
    XorZero(r);
  }

  /** Moving the key of one bit from the board to the hash keeps their XOR. */
  lemma HashBitStep(r: Word, b: Bitboard, key: Square -> Word, sq: Square)
    requires sq in b
    ensures Xor(Xor(r, key(sq)), XorOf(b - {sq}, key)) == Xor(r, XorOf(b, key))
  {
    XorOfRemove(b, key, sq);
    XorAssoc(r, key(sq), XorOf(b - {sq}, key));
  }

  /** The piece part of `initialize_hash`: the keys of every set bit of every board. */
  method PiecesHash(keys: Keys, pieces: array2<Bitboard>, ghost pb: seq<Bitboard>) returns (h: Word)
    requires Holds(pieces, pb)
    ensures h == BoardsHash(keys, pb, 12)
  {
    h := {};
    var color := 0;
    while color < 2
      invariant 0 <= color <= 2
      invariant h == BoardsHash(keys, pb, color * 6)
    {
      var piece := 0;
      while piece < 6
        invariant 0 <= piece <= 6
        invariant h == BoardsHash(keys, pb, color * 6 + piece)
      {
        h := HashBits(BoardKey(keys, color * 6 + piece), pieces[color, piece], h);
        piece := piece + 1;
      }
      color := color + 1;
    }
  }

  /** One board more in the material sum. */
  lemma MaterialStep(pb: seq<Bitboard>, color: int, piece: int, count: int, term: int)
    requires |pb| == 12 && 0 <= color < 2 && 0 <= piece < 6
    requires count == Popcount(pb[color * 6 + piece])
    requires term == count * PieceValue(if color == 0 then White else Black, PieceOfIndex(piece))
    ensures MaterialUpTo(pb, color * 6 + piece + 1) == MaterialUpTo(pb, color * 6 + piece) + term
  {
    assert (color * 6 + piece) % 6 == piece;
  }

  /** `initialize_material_score`: `popcount(board) * PIECE_VALUES[color][piece]` summed over the boards. */
  method MaterialLoop(pieces: array2<Bitboard>, ghost pb: seq<Bitboard>) returns (score: int)
    requires Holds(pieces, pb)
    ensures score == MaterialOf(pb)
  {
    score := 0;
    var color := 0;
    while color < 2
      invariant 0 <= color <= 2
      invariant score == MaterialUpTo(pb, color * 6)
    {
      var piece := 0;
      while piece < 6
        invariant 0 <= piece <= 6
        invariant score == MaterialUpTo(pb, color * 6 + piece)
      {
        var count := Popcount(pieces[color, piece]);
        var term := count * PieceValue(if color == 0 then White else Black, PieceOfIndex(piece));
        MaterialStep(pb, color, piece, count, term);
        score := score + term;
        piece := piece + 1;
      }
      color := color + 1;
    }
  }
}
