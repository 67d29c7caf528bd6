// Move text: the UCI coordinate form of include/uci_helpers.h and the
// standard algebraic notation (SAN) of src/notation_utils.cpp, with the
// SAN lookup `parse_move` of include/utils.h.
module Notation {
  import opened Bits
  import opened Pieces
  import opened Moves
  import opened Position
  import opened MoveGen

  // ---------------------------------------------------------------
  // Squares as text
  // ---------------------------------------------------------------

  /** `sq % 8` with C's truncating remainder: -1 for the "no square" value. */
  function FileOf(sq: SquareOrNone): (f: int)
    ensures -1 <= f < 8 && (sq >= 0 ==> f >= 0)
  {
    if sq < 0 then -1 else sq % 8
  }

  /** `sq / 8` with C's truncating division: 0 for the "no square" value. */
  function RankOf(sq: SquareOrNone): (r: int)
    ensures 0 <= r < 8
  {
    if sq < 0 then 0 else sq / 8
  }

  /** A square is its rank times eight plus its file, and the pair tells squares apart. */
  lemma SquareParts(sq: SquareOrNone)
    ensures sq == RankOf(sq) * 8 + FileOf(sq)
  {
  }

  function FileChar(sq: SquareOrNone): (c: char)
    ensures 'a' as int - 1 <= c as int <= 'h' as int
  {
    ('a' as int + FileOf(sq)) as char
  }

  function RankChar(sq: SquareOrNone): (c: char)
    ensures '1' <= c <= '8'
  {
    ('1' as int + RankOf(sq)) as char
  }

  /** `square_to_algebraic` and the `sq_to_str` of `move_to_uci`: file letter, then rank digit. */
  function SquareName(sq: SquareOrNone): (s: string)
    ensures |s| == 2 && s[0] == FileChar(sq) && s[1] == RankChar(sq)
    ensures sq >= 0 ==> 'a' <= s[0] <= 'h'
  {
    [FileChar(sq), RankChar(sq)]
  }

  /** How `parse_uci_move` reads a square: `(rank - '1') * 8 + (file - 'a')`. */
  function DecodeSquare(file: char, rank: char): int
  {
    (rank as int - '1' as int) * 8 + (file as int - 'a' as int)
  }

  /** Reading a square's name back gives the square. */
  lemma SquareNameRoundTrip(sq: SquareOrNone)
    ensures DecodeSquare(SquareName(sq)[0], SquareName(sq)[1]) == sq
  {
    SquareParts(sq);
  }

  /** Different squares have different names. */
  lemma SquareNameInjective(a: SquareOrNone, b: SquareOrNone)
    requires SquareName(a) == SquareName(b)
    ensures a == b
  {
    SquareNameRoundTrip(a);
    SquareNameRoundTrip(b);
  }

  // ---------------------------------------------------------------
  // UCI
  // ---------------------------------------------------------------

  /** The promotion letter of `move_to_uci`; a piece outside the switch keeps the default 'q'. */
  function PromotionLetter(p: PieceType): (c: char)
    ensures c in "qrbn"
  {
    match p
    case Rook => 'r'
    case Bishop => 'b'
    case Knight => 'n'
    case _ => 'q'
  }

  /** The promotion switch of `parse_uci_move`; any other letter throws. */
  function PromotionOfLetter(c: char): (r: Option<PieceType>)
    ensures r.None? <==> c !in "qrbn"
    ensures r.Some? ==> r.value in {Queen, Rook, Bishop, Knight}
  {
    match c
    case 'q' => Some(Queen)
    case 'r' => Some(Rook)
    case 'b' => Some(Bishop)
    case 'n' => Some(Knight)
    case _ => None
  }

  /** The promotion pieces read back from their letters. */
  lemma PromotionLetterRoundTrip(p: PieceType)
    requires p in {Queen, Rook, Bishop, Knight}
    ensures PromotionOfLetter(PromotionLetter(p)) == Some(p)
  {
  }

  /** `move_to_uci`. */
  function MoveToUci(m: Move): (s: string)
    ensures |s| == (if m.promotion == NoPiece then 4 else 5)
    ensures s[..2] == SquareName(m.from) && s[2..4] == SquareName(m.to)
    ensures m.promotion != NoPiece ==> s[4] == PromotionLetter(m.promotion)
  {
    SquareName(m.from) + SquareName(m.to) + (if m.promotion == NoPiece then "" else [PromotionLetter(m.promotion)])
  }

  /** The three `runtime_error`s `parse_uci_move` throws. */
  datatype UciError = TooShort | BadPromotion | NoMatch

  datatype Parsed = Found(move: Move) | Rejected(error: UciError)

  /** The test of the matching loop: same squares, and the same promotion when one was given. */
  predicate UciMatches(m: Move, from: int, to: int, promo: PieceType)
  {
    m.from == from && m.to == to && (promo == NoPiece || m.promotion == promo)
  }

  /** The first move from index `i` on that matches, or `NoMatch`. */
  function FirstUciMatch(ms: seq<Move>, i: nat, from: int, to: int, promo: PieceType): (r: Parsed)
    requires i <= |ms|
    ensures r.Found? ==> exists k :: i <= k < |ms| && ms[k] == r.move && UciMatches(ms[k], from, to, promo)
                                     && forall j :: i <= j < k ==> !UciMatches(ms[j], from, to, promo)
    ensures r.Rejected? ==> r.error == NoMatch && forall j :: i <= j < |ms| ==> !UciMatches(ms[j], from, to, promo)
    decreases |ms| - i
  {
    if i == |ms| then Rejected(NoMatch)
    else if UciMatches(ms[i], from, to, promo) then Found(ms[i])
    else FirstUciMatch(ms, i + 1, from, to, promo)
  }

  /**
   * `parse_uci_move` on the move list the generator gives. Only a 5-character
   * input is read for a promotion; longer input is matched on its first four
   * characters.
   */
  function ParseUci(ms: seq<Move>, s: string): (r: Parsed)
    ensures |s| < 4 <==> r == Rejected(TooShort)
    ensures r == Rejected(BadPromotion) <==> |s| == 5 && s[4] !in "qrbn"
    ensures r.Found? ==> && r.move in ms
                         && r.move.from == DecodeSquare(s[0], s[1]) && r.move.to == DecodeSquare(s[2], s[3])
                         && (|s| == 5 ==> r.move.promotion == PromotionOfLetter(s[4]).value)
    ensures r == Rejected(NoMatch) <==>
              && |s| >= 4 && !(|s| == 5 && s[4] !in "qrbn")
              && forall m :: m in ms ==> !UciMatches(m, DecodeSquare(s[0], s[1]), DecodeSquare(s[2], s[3]),
                                                      if |s| == 5 then PromotionOfLetter(s[4]).value else NoPiece)
  {
    if |s| < 4 then Rejected(TooShort)
    else
      var promo := if |s| == 5 then PromotionOfLetter(s[4]) else Some(NoPiece);
      if promo.None? then Rejected(BadPromotion)
      else FirstUciMatch(ms, 0, DecodeSquare(s[0], s[1]), DecodeSquare(s[2], s[3]), promo.value)
  }

  /** The matching `for` loop of `parse_uci_move`. */
  method FindUciMove(ms: seq<Move>, from: int, to: int, promo: PieceType) returns (r: Parsed)
    ensures r == FirstUciMatch(ms, 0, from, to, promo)
  {
    var i := 0;
    while i < |ms|
      invariant 0 <= i <= |ms|
      invariant FirstUciMatch(ms, i, from, to, promo) == FirstUciMatch(ms, 0, from, to, promo)
    {
      if ms[i].from == from && ms[i].to == to {
        if promo == NoPiece || ms[i].promotion == promo {
          return Found(ms[i]);
        }
      }
      i := i + 1;
    }
    return Rejected(NoMatch);
  }

  /** `parse_uci_move(board, s)`: the input checks, then a search of the full legal list. */
  method ParseUciMove(st: State, s: string) returns (r: Parsed)
    requires Ready(st)
    ensures r == ParseUci(LegalMoves(st, false), s)
  {
    if |s| < 4 {
      return Rejected(TooShort);
    }
    var from := DecodeSquare(s[0], s[1]);
    var to := DecodeSquare(s[2], s[3]);
    var promo := NoPiece;
    if |s| == 5 {
      var p := PromotionOfLetter(s[4]);
      if p.None? {
        return Rejected(BadPromotion);
      }
      promo := p.value;
    }
    var moves := GenerateMoves(st, false);
    r := FindUciMove(moves, from, to, promo);
  }

  /**
   * A list in which a from/to pair names one move, except for the promotions
   * of one pawn move, which differ in the promotion piece.
   */
  predicate Unambiguous(ms: seq<Move>)
  {
    forall i, j | 0 <= i < j < |ms| && ms[i].from == ms[j].from && ms[i].to == ms[j].to ::
      ms[i].promotion != NoPiece && ms[j].promotion != NoPiece && ms[i].promotion != ms[j].promotion
  }

  /** A move's UCI text finds a move of the list with its squares and promotion piece. */
  lemma UciRoundTripSquares(ms: seq<Move>, m: Move)
    requires m in ms && m.promotion in {NoPiece, Queen, Rook, Bishop, Knight}
    ensures var r := ParseUci(ms, MoveToUci(m));
            && r.Found? && r.move.from == m.from && r.move.to == m.to
            && (m.promotion != NoPiece ==> r.move.promotion == m.promotion)
  {
    var s := MoveToUci(m);
    SquareNameRoundTrip(m.from);
    SquareNameRoundTrip(m.to);
    assert s[0] == s[..2][0] && s[1] == s[..2][1] && s[2] == s[2..4][0] && s[3] == s[2..4][1];
    if m.promotion != NoPiece {
      PromotionLetterRoundTrip(m.promotion);
    }
    var promo := if |s| == 5 then PromotionOfLetter(s[4]).value else NoPiece;
    assert promo == m.promotion;
    assert UciMatches(m, DecodeSquare(s[0], s[1]), DecodeSquare(s[2], s[3]), promo);
  }

  /** On an unambiguous list, `parse_uci_move(board, move_to_uci(m)) == m` for every listed move. */
  lemma UciRoundTrip(ms: seq<Move>, m: Move)
    requires m in ms && m.promotion in {NoPiece, Queen, Rook, Bishop, Knight}
    requires Unambiguous(ms)
    ensures ParseUci(ms, MoveToUci(m)) == Found(m)
  {
    UciRoundTripSquares(ms, m);
    var s := MoveToUci(m);
    var r := ParseUci(ms, s);
    var promo := if |s| == 5 then PromotionOfLetter(s[4]).value else NoPiece;
    var from, to := DecodeSquare(s[0], s[1]), DecodeSquare(s[2], s[3]);
    assert r == FirstUciMatch(ms, 0, from, to, promo);
    var k :| 0 <= k < |ms| && ms[k] == r.move && UciMatches(ms[k], from, to, promo)
             && forall j :: 0 <= j < k ==> !UciMatches(ms[j], from, to, promo);
    var i :| 0 <= i < |ms| && ms[i] == m;
  }

  // ---------------------------------------------------------------
  // SAN
  // ---------------------------------------------------------------

  /** `PIECE_CHAR_LIST[to_int(p)]`. */
  function PieceLetter(p: PieceType): (c: char)
    ensures c in "PNBRQK."
  {
    PIECE_CHAR_LIST[PieceIndex(p)]
  }

  /** Different pieces have different letters. */
  lemma PieceLetterInjective(p: PieceType, q: PieceType)
    requires PieceLetter(p) == PieceLetter(q)
    ensures p == q
  {
  }

  /** `other` also brings a piece of the same type to the same square, from elsewhere. */
  predicate IsCompetitor(m: Move, other: Move)
  {
    other.moved == m.moved && other.to == m.to && other.from != m.from
  }

  /** The `competitors` vector of `to_san`, in list order. */
  function Competitors(m: Move, ms: seq<Move>): (cs: seq<Move>)
    ensures forall c :: c in cs <==> c in ms && IsCompetitor(m, c)
  {
    if |ms| == 0 then []
    else Competitors(m, ms[..|ms| - 1]) + (if IsCompetitor(m, ms[|ms| - 1]) then [ms[|ms| - 1]] else [])
  }

  predicate SharesFile(m: Move, cs: seq<Move>)
  {
    exists c :: c in cs && FileOf(c.from) == FileOf(m.from)
  }

  predicate SharesRank(m: Move, cs: seq<Move>)
  {
    exists c :: c in cs && RankOf(c.from) == RankOf(m.from)
  }

  /**
   * The disambiguation of a piece move: nothing without competitors, else the
   * from-file if no competitor shares it, else the from-rank if no
   * competitor shares that, else the whole from-square.
   */
  function Disambiguation(m: Move, ms: seq<Move>): (d: string)
    ensures d == [] <==> Competitors(m, ms) == []
    ensures d != [] && !SharesFile(m, Competitors(m, ms)) ==> d == [FileChar(m.from)]
    ensures d != [] && SharesFile(m, Competitors(m, ms)) && !SharesRank(m, Competitors(m, ms)) ==> d == [RankChar(m.from)]
    ensures d != [] && SharesFile(m, Competitors(m, ms)) && SharesRank(m, Competitors(m, ms)) ==> d == SquareName(m.from)
  {
    var cs := Competitors(m, ms);
    if |cs| == 0 then ""
    else if !SharesFile(m, cs) then [FileChar(m.from)]
    else if !SharesRank(m, cs) then [RankChar(m.from)]
    else SquareName(m.from)
  }

  function CaptureMark(m: Move): string
  {
    if m.captured != NoPiece then "x" else ""
  }

  /** `to_san(move, all_legal_moves)`. */
  function San(m: Move, ms: seq<Move>): (s: string)
    ensures m.isCastle ==> s == "O-O" || s == "O-O-O"
    ensures !m.isCastle && (m.moved != Pawn || m.promotion == NoPiece) ==>
              |s| >= 2 && s[|s| - 2..] == SquareName(m.to)
  {
    if m.isCastle then (if FileOf(m.to) == 6 then "O-O" else "O-O-O")
    else if m.moved == Pawn then
      (if m.captured != NoPiece then [FileChar(m.from)] + "x" + SquareName(m.to) else SquareName(m.to))
      + (if m.promotion != NoPiece then "=" + [PieceLetter(m.promotion)] else "")
    else [PieceLetter(m.moved)] + Disambiguation(m, ms) + CaptureMark(m) + SquareName(m.to)
  }

  /** A piece move reads: piece letter, disambiguation, capture mark, destination. */
  lemma SanPieceShape(m: Move, ms: seq<Move>)
    requires !m.isCastle && m.moved != Pawn
    ensures var s := San(m, ms);
            && |s| >= 3 && s[0] == PieceLetter(m.moved) && s[|s| - 2..] == SquareName(m.to)
            && s[1..|s| - 2] == Disambiguation(m, ms) + CaptureMark(m)
  {
  }

  /** Every pawn move starts with a file letter; a capture also names the from-file. */
  lemma SanPawnShape(m: Move, ms: seq<Move>)
    requires !m.isCastle && m.moved == Pawn
    ensures var s := San(m, ms);
            && |s| >= 2 && 'a' as int - 1 <= s[0] as int <= 'h' as int
            && (m.captured != NoPiece ==> s[..4] == [FileChar(m.from), 'x'] + SquareName(m.to))
            && (m.captured == NoPiece ==> s[..2] == SquareName(m.to))
            && (m.promotion != NoPiece ==> s[|s| - 2..] == ['=', PieceLetter(m.promotion)])
  {
  }

  /** The capture mark and the disambiguation letters do not overlap. */
  lemma MiddleHead(m: Move, ms: seq<Move>)
    requires Competitors(m, ms) != []
    ensures var x := Disambiguation(m, ms) + CaptureMark(m);
            && |x| >= 1
            && (!SharesFile(m, Competitors(m, ms)) ==> x[0] == FileChar(m.from))
            && (SharesFile(m, Competitors(m, ms)) && !SharesRank(m, Competitors(m, ms)) ==> x[0] == RankChar(m.from))
            && (SharesFile(m, Competitors(m, ms)) && SharesRank(m, Competitors(m, ms)) ==>
                  |x| >= 2 && x[0] == FileChar(m.from) && x[1] == RankChar(m.from))
  {
  }

  /**
   * Disambiguation works: two listed piece moves of one piece type to one
   * square, from different squares, get different SAN.
   */
  lemma SanDistinct(a: Move, b: Move, ms: seq<Move>)
    requires a in ms && b in ms && !a.isCastle && !b.isCastle && a.moved != Pawn
    requires IsCompetitor(a, b)
    ensures San(a, ms) != San(b, ms)
  {
    var ca, cb := Competitors(a, ms), Competitors(b, ms);
    assert b in ca && a in cb;
    if San(a, ms) == San(b, ms) {
      SanPieceShape(a, ms);
      SanPieceShape(b, ms);
      MiddleHead(a, ms);
      MiddleHead(b, ms);
      var xa, xb := Disambiguation(a, ms) + CaptureMark(a), Disambiguation(b, ms) + CaptureMark(b);
      assert xa == xb;
      SquareParts(a.from);
      SquareParts(b.from);
      if SharesFile(a, ca) && SharesRank(a, ca) && SharesFile(b, cb) && SharesRank(b, cb) {
        SquareNameInjective(a.from, b.from);
      }
    }
  }

  /** The first move from index `i` on whose SAN is `s`, or the default move. */
  function SanMatchFrom(s: string, ms: seq<Move>, i: nat): (r: Move)
    requires i <= |ms|
    ensures || (exists k :: i <= k < |ms| && ms[k] == r && San(r, ms) == s)
            || (r == NullMove() && forall k :: i <= k < |ms| ==> San(ms[k], ms) != s)
    decreases |ms| - i
  {
    if i == |ms| then NullMove()
    else if San(ms[i], ms) == s then ms[i]
    else SanMatchFrom(s, ms, i + 1)
  }

  /** One comparison of the `parse_move` loop. */
  lemma SanMatchStep(s: string, ms: seq<Move>, i: nat)
    requires i < |ms|
    ensures SanMatchFrom(s, ms, i) == if San(ms[i], ms) == s then ms[i] else SanMatchFrom(s, ms, i + 1)
  {
  }

  /** `parse_move(move_str, move_list)`: the first listed move whose SAN is `move_str`, else `Move()`. */
  function ParseSan(s: string, ms: seq<Move>): (r: Move)
    ensures (r in ms && San(r, ms) == s) || (r == NullMove() && forall m :: m in ms ==> San(m, ms) != s)
  {
    SanMatchFrom(s, ms, 0)
  }

  /** A SAN some listed move has is found, and the move found has that SAN. */
  lemma ParseSanFinds(s: string, ms: seq<Move>, m: Move)
    requires m in ms && San(m, ms) == s
    ensures ParseSan(s, ms) in ms && San(ParseSan(s, ms), ms) == s
  {
    var i :| 0 <= i < |ms| && ms[i] == m;
    assert San(ms[i], ms) == s;
  }

  /** Two listed moves with one SAN, one of them a piece move: same piece, same squares. */
  lemma SameSanSameSquares(m: Move, r: Move, ms: seq<Move>)
    requires m in ms && r in ms && !m.isCastle && m.moved != Pawn
    requires San(r, ms) == San(m, ms)
    ensures r.moved == m.moved && r.from == m.from && r.to == m.to
  {
    SanPieceShape(m, ms);
    if !r.isCastle && r.moved == Pawn {
      SanPawnShape(r, ms);
    } else if !r.isCastle {
      SanPieceShape(r, ms);
      PieceLetterInjective(r.moved, m.moved);
      SquareNameInjective(r.to, m.to);
      if r.from != m.from {
        SanDistinct(m, r, ms);
      }
    }
  }

  /**
   * SAN round trip: reading back the SAN of a listed piece move finds a move
   * of the same piece between the same squares.
   */
  lemma SanRoundTrip(m: Move, ms: seq<Move>)
    requires m in ms && !m.isCastle && m.moved != Pawn && m.moved != NoPiece
    ensures var r := ParseSan(San(m, ms), ms);
            r in ms && r.moved == m.moved && r.from == m.from && r.to == m.to
  {
    ParseSanFinds(San(m, ms), ms, m);
    SameSanSameSquares(m, ParseSan(San(m, ms), ms), ms);
  }

  /** The `competitors` loop of `to_san`. */
  method CollectCompetitors(m: Move, ms: seq<Move>) returns (cs: seq<Move>)
    ensures cs == Competitors(m, ms)
  {
    cs := [];
    var i := 0;
    while i < |ms|
      invariant 0 <= i <= |ms|
      invariant cs == Competitors(m, ms[..i])
    {
      assert ms[..i + 1][..i] == ms[..i];
      if ms[i].moved == m.moved && ms[i].to == m.to && ms[i].from != m.from {
        cs := cs + [ms[i]];
      }
      i := i + 1;
    }
    assert ms[..i] == ms;
  }

  /** The `same_file` loop: stops at the first competitor on the from-file. */
  method AnyOnFile(m: Move, cs: seq<Move>) returns (found: bool)
    ensures found == SharesFile(m, cs)
  {
    found := false;
    var k := 0;
    while k < |cs|
      invariant 0 <= k <= |cs|
      invariant forall j :: 0 <= j < k ==> FileOf(cs[j].from) != FileOf(m.from)
    {
      if FileOf(cs[k].from) == FileOf(m.from) {
        found := true;
        break;
      }
      k := k + 1;
    }
  }

  /** The `same_rank` loop: stops at the first competitor on the from-rank. */
  method AnyOnRank(m: Move, cs: seq<Move>) returns (found: bool)
    ensures found == SharesRank(m, cs)
  {
    found := false;
    var k := 0;
    while k < |cs|
      invariant 0 <= k <= |cs|
      invariant forall j :: 0 <= j < k ==> RankOf(cs[j].from) != RankOf(m.from)
    {
      if RankOf(cs[k].from) == RankOf(m.from) {
        found := true;
        break;
      }
      k := k + 1;
    }
  }

  /** `to_san`, with its loops. */
  method ToSan(m: Move, ms: seq<Move>) returns (s: string)
    ensures s == San(m, ms)
  {
    if m.isCastle {
      return if FileOf(m.to) == 6 then "O-O" else "O-O-O";
    }
    var pieceSymbol := [PieceLetter(m.moved)];
    var dest := SquareName(m.to);
    var capture := if m.captured != NoPiece then "x" else "";
    if m.moved == Pawn {
      var notation := if capture != "" then [SquareName(m.from)[0]] + capture + dest else dest;
      if m.promotion != NoPiece {
        notation := notation + "=" + [PieceLetter(m.promotion)];
      }
      return notation;
    }
    var disambiguation := "";
    var competitors := CollectCompetitors(m, ms);
    if competitors != [] {
      var sameFile := AnyOnFile(m, competitors);
      if !sameFile {
        disambiguation := [SquareName(m.from)[0]];
      } else {
        var sameRank := AnyOnRank(m, competitors);
        if !sameRank {
          disambiguation := [SquareName(m.from)[1]];
        } else {
          disambiguation := SquareName(m.from);
        }
      }
    }
    s := pieceSymbol + disambiguation + capture + dest;
  }

  /** `parse_move`: the loop comparing each listed move's SAN with the input. */
  method ParseMove(str: string, ms: seq<Move>) returns (r: Move)
    ensures r == ParseSan(str, ms)
  {
    var i := 0;
    while i < |ms|
      invariant 0 <= i <= |ms|
      invariant SanMatchFrom(str, ms, i) == ParseSan(str, ms)
    {
      var san := ToSan(ms[i], ms);
      SanMatchStep(str, ms, i);
      if str == san {
        return ms[i];
      }
      i := i + 1;
    }
    r := NullMove();
  }
}
