// The FEN reader of src/board.cpp: field splitting, piece placement, side to
// move, castling, en passant and the two counters. The placement loop itself
// runs inside the `Board` class (board.dfy); this module holds what it is
// proved against.
module Fen {
  import opened Bits
  import opened Pieces

  // ---------------------------------------------------------------
  // Splitting on ' ' the way repeated `std::getline(ss, item, ' ')` does
  // ---------------------------------------------------------------

  /**
   * The fields `getline` yields from `rest` when `item` has been read so
   * far: every space ends a field (so two spaces give an empty one), and the
   * text after the last space is a field only if it is not empty.
   */
  function SplitFrom(item: string, rest: string): (fields: seq<string>)
    requires ' ' !in item
    ensures forall i :: 0 <= i < |fields| ==> ' ' !in fields[i]
    decreases |rest|
  {
    if rest == [] then (if item == [] then [] else [item])
    else if rest[0] == ' ' then [item] + SplitFrom([], rest[1..])
    else SplitFrom(item + [rest[0]], rest[1..])
  }

  /** The fields of a FEN string. */
  function SplitFields(s: string): (fields: seq<string>)
    ensures forall i :: 0 <= i < |fields| ==> ' ' !in fields[i]
  {
    SplitFrom([], s)
  }

  /** The fields joined back with single spaces. */
  function Join(fields: seq<string>): string
  {
    if fields == [] then [] else if |fields| == 1 then fields[0] else fields[0] + " " + Join(fields[1..])
  }

  /** The `getline` loop of `parse_fen`, collecting the fields in order. */
  method SplitFen(fen: string) returns (parts: seq<string>)
    ensures parts == SplitFields(fen)
  {
    parts := [];
    var item: string := [];
    var i := 0;
    while i < |fen|
      invariant 0 <= i <= |fen| && ' ' !in item
      invariant parts + SplitFrom(item, fen[i..]) == SplitFields(fen)
    {
      assert fen[i..][1..] == fen[i + 1..];
      if fen[i] == ' ' {
        parts := parts + [item];
        item := [];
      } else {
        item := item + [fen[i]];
      }
      i := i + 1;
    }
    if item != [] {
      parts := parts + [item];
    }
  }

  lemma {:induction false} SplitFromWord(item: string, w: string, rest: string)
    requires ' ' !in item && ' ' !in w
    ensures SplitFrom(item, w + rest) == SplitFrom(item + w, rest)
    decreases |w|
  {
    if w != [] {
      assert (w + rest)[0] == w[0] && (w + rest)[1..] == w[1..] + rest;
      SplitFromWord(item + [w[0]], w[1..], rest);
      assert item + [w[0]] + w[1..] == item + w;
    } else {
      assert w + rest == rest && item + w == item;
    }
  }

  /**
   * Splitting undoes joining for fields without spaces whose last field is
   * not empty (a trailing empty field is what `getline` drops).
   */
  lemma {:induction false} SplitJoin(fields: seq<string>)
    requires |fields| > 0 && fields[|fields| - 1] != []
    requires forall i :: 0 <= i < |fields| ==> ' ' !in fields[i]
    ensures SplitFields(Join(fields)) == fields
    decreases |fields|
  {
    if |fields| == 1 {
      SplitFromWord([], fields[0], []);
      assert fields[0] + [] == fields[0] && [] + fields[0] == fields[0];
      assert fields == [fields[0]];
    } else {
      var tail := fields[1..];
      assert tail[|tail| - 1] == fields[|fields| - 1];
      SplitJoin(tail);
      var rest := Join(tail);
      SplitFromWord([], fields[0], " " + rest);
      assert Join(fields) == fields[0] + (" " + rest);
      assert [] + fields[0] == fields[0];
      assert (" " + rest)[0] == ' ' && (" " + rest)[1..] == rest;
      assert SplitFrom(fields[0], " " + rest) == [fields[0]] + SplitFrom([], rest);
      assert fields == [fields[0]] + tail;
    }
  }

  /** Joining undoes splitting for a string that does not end in a space. */
  lemma {:induction false} JoinSplitFrom(item: string, rest: string)
    requires ' ' !in item && (rest == [] || rest[|rest| - 1] != ' ')
    requires item != [] || rest != []
    ensures Join(SplitFrom(item, rest)) == item + rest
    decreases |rest|
  {
    if rest == [] {
    } else if rest[0] == ' ' {
      assert rest[1..] != [];
      JoinSplitFrom([], rest[1..]);
      var after := SplitFrom([], rest[1..]);
      assert after != [] by {
        JoinSplitFrom([], rest[1..]);
      }
      assert rest == " " + rest[1..];
    } else {
      JoinSplitFrom(item + [rest[0]], rest[1..]);
      assert item + [rest[0]] + rest[1..] == item + rest;
    }
  }

  lemma JoinSplit(s: string)
    requires s != [] && s[|s| - 1] != ' '
    ensures Join(SplitFields(s)) == s
  {
    JoinSplitFrom([], s);
  }

  // ---------------------------------------------------------------
  // std::stoi
  // ---------------------------------------------------------------

  const INT_MIN: int := -0x8000_0000
  const INT_MAX: int := 0x7FFF_FFFF

  /** C `isspace` in the "C" locale. */
  predicate IsSpace(c: char)
  {
    c == ' ' || c == '\t' || c == '\n' || c == '\r' || c == '\U{B}' || c == '\U{C}'
  }

  predicate IsDigit(c: char) { '0' <= c <= '9' }

  function DigitValue(c: char): (d: int)
    requires IsDigit(c)
    ensures 0 <= d <= 9
  {
    c as int - '0' as int
  }

  /** The number of leading decimal digits. */
  function LeadingDigits(s: string): (n: nat)
    ensures n <= |s| && forall i :: 0 <= i < n ==> IsDigit(s[i])
    ensures n < |s| ==> !IsDigit(s[n])
  {
    if s == [] || !IsDigit(s[0]) then 0 else 1 + LeadingDigits(s[1..])
  }

  /** The value of a run of decimal digits, most significant first. */
  function DigitsValue(ds: string): (v: nat)
    requires forall i :: 0 <= i < |ds| ==> IsDigit(ds[i])
  {
    if ds == [] then 0 else 10 * DigitsValue(ds[..|ds| - 1]) + DigitValue(ds[|ds| - 1])
  }

  function SkipSpaces(s: string): (t: string)
    ensures t == [] || !IsSpace(t[0])
    ensures |t| <= |s| && t == s[|s| - |t|..]
  {
    if s != [] && IsSpace(s[0]) then SkipSpaces(s[1..]) else s
  }

  /** The value of the leading decimal digits of `u`, or `None` when it does not start with one. */
  function LeadingValue(u: string): (r: Option<nat>)
    ensures r.None? <==> LeadingDigits(u) == 0
  {
    var n := LeadingDigits(u);
    if n == 0 then None else Some(DigitsValue(u[..n]))
  }

  /**
   * `std::stoi`, base 10: leading white space, an optional sign, then at
   * least one digit; the text after the digits is ignored. No digit throws
   * `invalid_argument` and a value outside `int` throws `out_of_range`: both
   * are `None`.
   */
  function Stoi(s: string): (r: Option<int>)
    ensures r.Some? ==> INT_MIN <= r.value <= INT_MAX
  {
    var t := SkipSpaces(s);
    var neg := t != [] && t[0] == '-';
    var u := if t != [] && (t[0] == '-' || t[0] == '+') then t[1..] else t;
    match LeadingValue(u)
    case None => None
    case Some(v) =>
      var x: int := if neg then -(v as int) else v;
      if INT_MIN <= x <= INT_MAX then Some(x) else None
  }

  function DigitChar(d: int): (c: char)
    requires 0 <= d <= 9
    ensures IsDigit(c) && DigitValue(c) == d
  {
    ('0' as int + d) as char
  }

  /** The decimal text of a natural number, without leading zeros. */
  function Decimal(n: nat): (s: string)
    ensures s != [] && forall i :: 0 <= i < |s| ==> IsDigit(s[i])
  {
    if n < 10 then [DigitChar(n)] else Decimal(n / 10) + [DigitChar(n % 10)]
  }

  lemma {:induction false} DecimalValue(n: nat)
    ensures DigitsValue(Decimal(n)) == n
  {
    if n >= 10 {
      DecimalValue(n / 10);
      var s := Decimal(n);
      assert s[..|s| - 1] == Decimal(n / 10);
    }
  }

  lemma LeadingDigitsAll(s: string)
    requires forall i :: 0 <= i < |s| ==> IsDigit(s[i])
    ensures LeadingDigits(s) == |s|
  {
    if s != [] {
      LeadingDigitsAll(s[1..]);
    }
  }

  /** The digits of `Decimal(n)` read back as `n`. */
  lemma LeadingValueDecimal(n: nat)
    ensures LeadingValue(Decimal(n)) == Some(n)
  {
    var d := Decimal(n);
    DecimalValue(n);
    LeadingDigitsAll(d);
    assert d[..|d|] == d;
  }

  /** `stoi` reads back the decimal text of every non-negative `int`. */
  lemma StoiDecimal(n: nat)
    requires n <= INT_MAX
    ensures Stoi(Decimal(n)) == Some(n)
  {
    var d := Decimal(n);
    LeadingValueDecimal(n);
    assert IsDigit(d[0]) && !IsSpace(d[0]) && d[0] != '-' && d[0] != '+';
    assert SkipSpaces(d) == d;
  }

  /** ... and, after a minus sign, its negation. */
  lemma StoiNegativeDecimal(n: nat)
    requires n <= INT_MAX
    ensures Stoi("-" + Decimal(n)) == Some(-(n as int))
  {
    LeadingValueDecimal(n);
    StoiMinus(Decimal(n), n);
  }

  /** A minus sign before digits of value `v` reads as `-v`. */
  lemma StoiMinus(d: string, v: nat)
    requires LeadingValue(d) == Some(v) && v <= INT_MAX
    ensures Stoi("-" + d) == Some(-(v as int))
  {
    var t := "-" + d;
    assert t[0] == '-' && t[1..] == d;
    assert SkipSpaces(t) == t;
  }

  /** `stoi` of text with no digit after the optional sign fails. */
  lemma StoiNoDigits(s: string)
    requires s == [] || (!IsDigit(s[0]) && s[0] != '-' && s[0] != '+' && !IsSpace(s[0]))
    ensures Stoi(s) == None
  {
  }

  // ---------------------------------------------------------------
  // The single fields
  // ---------------------------------------------------------------

  /** `parse_fen_turn`: "w" is white, anything else black. */
  function ParseTurn(data: string): (c: Color)
    ensures c == White <==> data == "w"
  {
    if data == "w" then White else Black
  }

  /** `parse_fen_castling`: "-" is no right, anything else is kept verbatim. */
  function ParseCastling(data: string): (rights: string)
    ensures data == "-" ==> rights == ""
    ensures data != "-" ==> rights == data
  {
    if data != "-" then data else ""
  }

  /**
   * `std::string::operator[]`: position `size()` reads the terminating
   * '\0'. Positions past it are undefined and are not used here.
   */
  function CharAt(s: string, i: nat): char
    requires i <= |s|
  {
    if i < |s| then s[i] else '\U{0}'
  }

  /**
   * `parse_fen_en_passant`: "-" is -1, else `(data[1] - '1') * 8 + (data[0] - 'a')`,
   * unchecked. The empty field would read past its end: `None`.
   */
  function ParseEnPassant(data: string): (r: Option<int>)
    ensures data == "-" ==> r == Some(-1)
    ensures data == [] ==> r == None
  {
    if data == "-" then Some(-1)
    else if data == [] then None
    else Some((CharAt(data, 1) as int - '1' as int) * 8 + (data[0] as int - 'a' as int))
  }

  /** The name of a square, file letter then rank digit. */
  function SquareName(sq: Square): (s: string)
    ensures |s| == 2 && 'a' <= s[0] <= 'h' && '1' <= s[1] <= '8'
  {
    [('a' as int + File(sq)) as char, ('1' as int + Rank(sq)) as char]
  }

  /** The en-passant field reads every square name back as that square. */
  lemma ParseEnPassantSquareName(sq: Square)
    ensures ParseEnPassant(SquareName(sq)) == Some(sq)
  {
  }

  // ---------------------------------------------------------------
  // parse_fen_pieces
  // ---------------------------------------------------------------

  /** What the placement loop has built so far. */
  datatype Placement = Placement(rank: int, file: int, boards: seq<Bitboard>, squares: seq<char>)

  predicate PlacementShaped(p: Placement)
  {
    |p.boards| == 12 && |p.squares| == 64
  }

  /** Before the first character: rank 7, file 0, empty boards and a map of '.'. */
  function StartPlacement(): (p: Placement)
    ensures PlacementShaped(p)
  {
    Placement(7, 0, seq(12, _ => {}), seq(64, _ => '.'))
  }

  /** The board a placement letter goes to, when it is a piece letter. */
  function LetterBoard(c: char): (r: Option<int>)
    ensures r.Some? ==> 0 <= r.value < 12
    ensures r.Some? <==> c in "PNBRQKpnbrqk"
  {
    match PieceTypeOf(ToUpper(c))
    case Some(p) =>
      if p == NoPiece then None
      else Some((if IsUpper(c) then 0 else 1) * 6 + PieceIndex(p))
    case None => None
  }

  /**
   * One character of the placement: '/' goes down a rank to file 0, a digit
   * skips that many files, and a piece letter sets its bit and map entry and
   * moves one file on. A letter not in `PIECE_TYPE_MAP` makes `.at` throw and
   * '.' (type `NONE`) would index past the six boards; a square outside
   * 0..63 would write outside the arrays: those are `None`.
   */
  function PlaceChar(p: Placement, c: char): (r: Option<Placement>)
    requires PlacementShaped(p)
    ensures r.Some? ==> PlacementShaped(r.value)
  {
    if c == '/' then Some(p.(rank := p.rank - 1, file := 0))
    else if IsDigit(c) then Some(p.(file := p.file + DigitValue(c)))
    else
      var sq := p.rank * 8 + p.file;
      match LetterBoard(c)
      case None => None
      case Some(k) =>
        if 0 <= sq < 64 then
          Some(p.(boards := p.boards[k := p.boards[k] + {sq}], squares := p.squares[sq := c], file := p.file + 1))
        else None
  }

  /** `LetterBoard` is the colour of the letter's case and the piece of its upper case. */
  lemma LetterBoardCases(c: char)
    ensures var piece := PieceTypeOf(ToUpper(c));
      if piece.None? || piece.value == NoPiece then LetterBoard(c).None?
      else LetterBoard(c) == Some((if IsUpper(c) then 0 else 1) * 6 + PieceIndex(piece.value))
  {
  }

  /** A letter with a board and a square on the board goes into that board and the map. */
  lemma PlaceLetterSome(p: Placement, c: char, k: int, sq: int)
    requires PlacementShaped(p) && c != '/' && !IsDigit(c) && LetterBoard(c) == Some(k)
    requires sq == p.rank * 8 + p.file && 0 <= sq < 64
    ensures PlaceChar(p, c) == Some(p.(boards := p.boards[k := p.boards[k] + {sq}], squares := p.squares[sq := c], file := p.file + 1))
  {
  }

  /** An unknown letter, '.', or a square off the board: no placement. */
  lemma PlaceLetterNone(p: Placement, c: char)
    requires PlacementShaped(p) && c != '/' && !IsDigit(c)
    requires LetterBoard(c).None? || !(0 <= p.rank * 8 + p.file < 64)
    ensures PlaceChar(p, c).None?
  {
  }

  /** The placement after reading all of `data` from `p`. */
  function PlaceAll(p: Placement, data: string): (r: Option<Placement>)
    requires PlacementShaped(p)
    ensures r.Some? ==> PlacementShaped(r.value)
    decreases |data|
  {
    if data == [] then Some(p)
    else
      match PlaceChar(p, data[0])
      case None => None
      case Some(q) => PlaceAll(q, data[1..])
  }

  /** Reading prefix and suffix in turn is reading the whole, one character at a time. */
  lemma {:induction false} PlaceAllStep(p: Placement, data: string, i: int)
    requires PlacementShaped(p) && 0 <= i < |data|
    requires PlaceAll(p, data[..i]).Some?
    ensures PlaceAll(p, data[..i + 1]) == PlaceChar(PlaceAll(p, data[..i]).value, data[i])
    decreases i
  {
    if i > 0 {
      var q := PlaceChar(p, data[0]);
      assert data[..i][0] == data[0] && data[..i][1..] == data[1..][..i - 1];
      assert data[..i + 1][0] == data[0] && data[..i + 1][1..] == data[1..][..i];
      PlaceAllStep(q.value, data[1..], i - 1);
    } else {
      assert data[..1][1..] == [];
    }
  }

  /** Once a character fails, the whole placement fails. */
  lemma {:induction false} PlaceAllFails(p: Placement, data: string, i: int)
    requires PlacementShaped(p) && 0 <= i <= |data|
    requires PlaceAll(p, data[..i]).None?
    ensures PlaceAll(p, data).None?
    decreases i
  {
    assert i > 0;
    if PlaceChar(p, data[0]).Some? {
      assert data[..i][1..] == data[1..][..i - 1];
      PlaceAllFails(PlaceChar(p, data[0]).value, data[1..], i - 1);
    }
  }

  /** Every square the map names holds its bit in the board of its letter. */
  predicate MapInBoards(p: Placement)
    requires PlacementShaped(p)
  {
    forall sq: Square :: p.squares[sq] != '.' ==>
      LetterBoard(p.squares[sq]).Some? && sq in p.boards[LetterBoard(p.squares[sq]).value]
  }

  /** One character keeps the map within the boards. */
  lemma PlaceCharKeepsMapInBoards(p: Placement, c: char)
    requires PlacementShaped(p) && MapInBoards(p) && PlaceChar(p, c).Some?
    ensures MapInBoards(PlaceChar(p, c).value)
  {
    if c != '/' && !IsDigit(c) {
      var q := PlaceChar(p, c).value;
      var sq := p.rank * 8 + p.file;
      var k := LetterBoard(c).value;
      assert q.squares == p.squares[sq := c] && q.boards == p.boards[k := p.boards[k] + {sq}];
      forall x: Square | q.squares[x] != '.'
        ensures LetterBoard(q.squares[x]).Some? && x in q.boards[LetterBoard(q.squares[x]).value]
      {
        if x != sq {
          assert q.squares[x] == p.squares[x];
          assert p.boards[LetterBoard(p.squares[x]).value] <= q.boards[LetterBoard(p.squares[x]).value];
        }
      }
    }
  }

  /**
   * Reading characters keeps the map within the boards: bits are only ever
   * added, and a letter's square gets both its bit and its letter.
   */
  lemma {:induction false} PlaceAllKeepsMapInBoards(p: Placement, data: string)
    requires PlacementShaped(p) && MapInBoards(p) && PlaceAll(p, data).Some?
    ensures MapInBoards(PlaceAll(p, data).value)
    decreases |data|
  {
    if data != [] {
      PlaceCharKeepsMapInBoards(p, data[0]);
      PlaceAllKeepsMapInBoards(PlaceChar(p, data[0]).value, data[1..]);
    }
  }

  /** `parse_fen`: exactly six fields, each read by its own routine. */
  datatype FenFields = FenFields(
    placement: Placement,
    turn: Color,
    castling: string,
    enPassant: int,
    halfMoves: int,
    moveCount: int)

  /** `parse_fen` fails when the placement does. */
  lemma ParseFenPlacementFails(fen: string)
    requires |SplitFields(fen)| == 6 && PlaceAll(StartPlacement(), SplitFields(fen)[0]).None?
    ensures ParseFen(fen).None?
  {
  }

  /** `parse_fen` with a good placement fails exactly when one of the later fields does, else holds them all. */
  lemma ParseFenRestCases(fen: string, pl: Placement)
    requires |SplitFields(fen)| == 6 && PlaceAll(StartPlacement(), SplitFields(fen)[0]) == Some(pl)
    ensures var parts := SplitFields(fen);
      ParseFen(fen).Some? <==> ParseEnPassant(parts[3]).Some? && Stoi(parts[4]).Some? && Stoi(parts[5]).Some?
    ensures ParseFen(fen).Some? ==> var parts := SplitFields(fen);
      ParseFen(fen).value == FenFields(pl, ParseTurn(parts[1]), ParseCastling(parts[2]), ParseEnPassant(parts[3]).value,
                                       Stoi(parts[4]).value, Stoi(parts[5]).value)
  {
  }

  /** The fields `parse_fen` stores, or `None` where it throws. */
  function ParseFen(fen: string): (r: Option<FenFields>)
    ensures r.Some? ==> |SplitFields(fen)| == 6 && PlacementShaped(r.value.placement)
  {
    var parts := SplitFields(fen);
    if |parts| != 6 then None
    else
      match PlaceAll(StartPlacement(), parts[0])
      case None => None
      case Some(pl) =>
        match ParseEnPassant(parts[3])
        case None => None
        case Some(ep) =>
          match Stoi(parts[4])
          case None => None
          case Some(half) =>
            match Stoi(parts[5])
            case None => None
            case Some(moves) =>
              Some(FenFields(pl, ParseTurn(parts[1]), ParseCastling(parts[2]), ep, half, moves))
  }

  /** After a successful `parse_fen`, each letter in the map has its bit in its board. */
  lemma ParseFenMapInBoards(fen: string)
    requires ParseFen(fen).Some?
    ensures MapInBoards(ParseFen(fen).value.placement)
  {
    var parts := SplitFields(fen);
    assert MapInBoards(StartPlacement());
    PlaceAllKeepsMapInBoards(StartPlacement(), parts[0]);
  }
}
