# A verified model of the Chess-Bot engine core

This project models, in Dafny, the position logic of the Chess-Bot C++
engine. It proves what that logic computes. The parts modelled are:

- **Bitboards and scans** (`bits.dfy`, `pieces.dfy`). A bitboard is the set of
  its squares. `get_lsb`/`get_msb` are the least and greatest square, or -1.
  `popcount` is the cardinality. The blocker scans of `include/utils.h` and
  the castling-letter string edits are modelled too.
- **Precomputed tables** (`tables.dfy`). These are the table-building loops
  of `src/generator.cpp`, as imperative loops over arrays. They cover the
  knight, king and pawn attacks, `LINE_BETWEEN`, `RAY_MASK`, the
  file/adjacent/passed-pawn masks and `DISTANCE_BONUS`. They also cover the
  rook blocker mask, blocker-subset enumeration and the magic-number
  collision test. Each table is proved equal to a declarative definition.
- **Moves** (`moves.dfy`). This is the `Move` value with its undo snapshot,
  `operator==` on from/to/promotion, the 16-bit `get_int` packing and the
  256-slot `MoveList` buffer.
- **Board** (`board.dfy`, `position.dfy`, `zobrist.dfy`, `setup.dfy`,
  `fen.dfy`):
  - FEN splitting and parsing;
  - `initialize_board`, `initialize_hash` and the material score;
  - `make_move`/`undo_move` as XOR toggles of the piece, colour and occupancy
    boards and of the Zobrist hash;
  - castling-right and en-passant updates, and the null move;
  - `count_attacker_on_square` and `in_check` (`attacks.dfy`).

  The `Board` class keeps the source's fields and updates them in place. The
  state it holds is tied to a value-level `Position.State` that the lemmas
  reason about.
- **Legal move generation** (`movegen.dfy`, `movegen_facts.dfy`). This covers
  pins, check count and the remedy mask, king safety, castling, pawn pushes
  and captures, promotions and the horizontal en-passant pin.
- **Static exchange evaluation** (`see.dfy`). This covers the gain array and
  its backward fold.
- **Transposition table** (`tt.dfy`). This is the 64-bit entry layout, the
  generation distance, and `probe_tt`/`store_tt` over an array of clusters.
- **Search helper rules** (`search.dfy`). These are the pure gates and
  updates used by the search: time control, futility pruning, late-move
  reduction, the null-move gate, the terminal score, staged move ordering,
  move recovery and the killer/history tables.
- **Move text** (`notation.dfy`). This covers UCI and SAN output, UCI and SAN
  parsing, and their round trips.
- **Evaluation terms** (`evaluation.dfy`). This covers the pawn structure,
  rook activity and bishop pair, the term mask of `evaluate`, and the pawn
  hash cache.

64-bit words that are only XORed and compared are modelled as sets of bit
positions, with XOR as symmetric difference. This covers the Zobrist keys
and hash and the bitboards. Where a numeric value matters, such as a blocker
subset, `(subset - 1) & mask` or the TT word, the model uses the explicit
value `Tables.Value` or plain integers with the source's widths written out.
The magic-table lookups are modelled by what they return: the ray cast up to
the first blocker.

Where the code and its documented intent differ, the model follows the code:

- `count_attacker_on_square` has no king term, so an enemy king is never
  counted as an attacker (src/board.cpp:470-515).
- `store_tt` tags the entry with `hash >> 48` but tests for an existing slot
  with `uint16_t(hash)` (src/engine.cpp:632-637). The model keeps both keys.
- The TT score is narrowed to `int16_t`, so scores outside its range come
  back wrapped (include/engine.h:26-40). `MATE_SCORE` is one such score.
- Castling rights are the `"KQkq"` string in the board code and a 4-bit mask
  in the move generator. Both are linked to one set of four rights.
- `recover_move_fully` flags a pawn's double push as en passant
  (src/engine.cpp:768).
- The rank-pin test of en-passant captures reads
  `(next == -1) | ((rook_queen & bit) == 0)` (src/MoveGenerator.cpp:424).

## Model

| member | source | states |
|---|---|---|
| `Bits.Lsb` | include/utils.h:14-23 | -1 exactly for the empty board; otherwise a square of the board no greater than any other |
| `Bits.LsbFrom` | include/utils.h:14-23 | the scan from index `i` upwards finds the lowest set bit at or above `i`, and -1 when there is none |
| `Bits.Msb` | include/utils.h:25-34 | -1 exactly for the empty board; otherwise a square of the board no smaller than any other |
| `Bits.MsbBelow` | include/utils.h:25-34 | the scan downwards from `i` finds the highest set bit below `i`, and -1 when there is none |
| `Bits.Popcount` | include/utils.h:53-59 | `popcount` equals the number of squares in the bitboard |
| `Bits.PopcountFromIsCardinality` | include/utils.h:53-59 | the bit count from index `i` equals the number of board squares at or above `i` |
| `Bits.FirstBlocker` | include/utils.h:89-92 | -1 exactly when no ray square is occupied; otherwise an occupied ray square, the lowest one forwards and the highest one backwards |
| `Bits.SecondBlockerIsNext` | include/utils.h:93-101 | whatever hint is passed, the result is -1 exactly when fewer than two ray squares are occupied, and otherwise the next occupied ray square beyond the first blocker in the same direction |
| `Bits.SecondBlocker` | include/utils.h:93-101 | `get_second_blocker_sq`: a found square is an occupied ray square other than the first blocker, beyond it in the ray's direction (its exact position is `SecondBlockerIsNext`) |
| `Bits.RemoveCastlingRight` | include/utils.h:69-74 | the letter no longer occurs, every other letter's presence is unchanged, and the multiset of letters loses exactly the occurrences of that letter |
| `Bits.RemoveCastlingRightDistributes` | include/utils.h:69-74 | erasing from a concatenation erases from each part, so the kept letters stay in their order |
| `Bits.RemoveCastlingRightIdempotent` | include/utils.h:69-74 | erasing a letter twice gives the same string as erasing it once |
| `Bits.RemoveAbsentRight` | include/utils.h:69-74 | a string without the letter is returned unchanged |
| `Bits.Xor` | src/board.cpp:381-420 | a square is in `a ^ b` exactly when it is in one of the two boards and not the other |
| `Bits.Toggle` | src/board.cpp:381-420 | `b ^ (1ULL << sq)` flips the membership of `sq` and leaves every other square as it was |
| `Bits.ToggleTwice` | src/board.cpp:381-420 | toggling the same square twice restores the bitboard |
| `Bits.Complement` | include/constants.h:56 | `~b` holds exactly the squares not in `b` |
| `Bits.AllSquares` | include/constants.h:56 | `BOARD_ALL_SET` holds every square |
| `Bits.Chebyshev` | src/generator.cpp:458-466 | the king-step distance lies in 0..7 and is 0 exactly for equal squares |
| `Pieces.ColorIndex` | include/utils.h:61-63 | `to_int` gives 0 exactly for white and 1 exactly for black |
| `Pieces.PieceIndex` | include/utils.h:65-67 | `to_int` gives 0..6, and 6 exactly for `NONE` |
| `Pieces.PieceOfIndex` | include/constants.h:11 | the piece type with a given index maps back to that index |
| `Pieces.PieceValue` | include/constants.h:34-37 | the value of a real piece is positive for white and negative for black |
| `Pieces.PieceValueMirrored` | include/constants.h:34-37 | the black row of `PIECE_VALUES` is the negation of the white row |
| `Pieces.Opponent` | include/constants.h:10 | the other colour differs from the given one |
| `Pieces.ToLower` | include/utils.h:76-78 | `tolower` turns an upper-case letter into a lower-case one and leaves every other character alone |
| `Pieces.ToUpper` | include/constants.h:20-25 | upper-casing turns a lower-case letter into an upper-case one and leaves every other character alone |
| `Pieces.PieceCharCase` | include/utils.h:76-78 | the black letter of a piece is the white letter lowered |
| `Pieces.PieceChar` | include/utils.h:76-78 | `get_piece_char` is '.' exactly for `NONE`; a real piece prints in upper case for white and in lower case for black |
| `Pieces.PieceTypeOf` | include/constants.h:20-25 | the lookup fails exactly for characters outside "PNBRQK.pnbrqk", and every character it knows is the white or black letter of the piece it maps to |
| `Pieces.PieceCharRoundTrip` | include/constants.h:20-26 | the letter `get_piece_char` prints reads back through `PIECE_TYPE_MAP` as the same piece, for either colour |
| `Pieces.RightChar` | src/board.cpp:76-82 | each castling right is one of the letters K, Q, k, q |
| `Pieces.RightBit` | include/constants.h:12-15 | each castling right is one of the bits 8, 4, 2, 1 |
| `Pieces.RightsOf` | src/board.cpp:76-82 | a castling string grants exactly the rights whose letter occurs in it |
| `Pieces.RightsOfColor` | include/constants.h:12-15 | each colour has exactly two castling rights, and a right belongs to a colour exactly when its letter is upper-case for white and lower-case for black |
| `Tables.StepTargetsMember` | src/generator.cpp:119-156 | a square is a step target exactly when its offset is one of the directions and it lies within the allowed file distance |
| `Tables.BuildStepTable` | src/generator.cpp:117-156 | the knight and king loops fill all 64 entries with the on-board, non-wrapping step targets |
| `Tables.KnightAttacksExact` | src/generator.cpp:117-135 | `knight_attacks[sq]` holds exactly the squares a knight's jump away (two ranks and one file or one rank and two files), never more than 2 files away |
| `Tables.KingAttacksExact` | src/generator.cpp:136-156 | `king_attacks[sq]` holds exactly the squares at king distance 1, never more than 1 file away |
| `Tables.BuildPawnAttacks` | src/generator.cpp:240-288 | both colours' pawn-attack tables are filled for all 64 squares |
| `Tables.PawnAttacksExact` | src/generator.cpp:240-288 | a pawn attacks exactly the diagonal squares one rank ahead (up for white, down for black), none across an edge |
| `Tables.WaypointCoords` | src/generator.cpp:296-311 | each step of the walk moves one unit along each axis towards the target |
| `Tables.WaypointFacts` | src/generator.cpp:296-311 | the walk starts at `a`, reaches `b` exactly after the Chebyshev distance, and steps by `rank_step*8 + file_step` |
| `Tables.WalkLine` | src/generator.cpp:294-316 | the body for one pair computes `line_between[from][to]` |
| `Tables.WalkSteps` | src/generator.cpp:306-312 | the while loop collects the walk from `from` to `to`, both ends included |
| `Tables.WalkAdvance` | src/generator.cpp:308-311 | one loop turn adds the current square and advances to the next waypoint |
| `Tables.WalkEnd` | src/generator.cpp:308-312 | when the walk reaches `to`, adding `to` completes the line |
| `Tables.BuildLineBetween` | src/generator.cpp:290-318 | every entry of the 64x64 table is the line between its two squares |
| `Tables.LineUpToMember` | src/generator.cpp:306-312 | the squares collected so far are exactly the first waypoints |
| `Tables.LineBetweenShape` | src/generator.cpp:290-318 | non-aligned pairs give 0; aligned pairs contain both ends and exactly the waypoints; `line_between[a][a] == {a}` |
| `Tables.BuildRayMask` | src/generator.cpp:382-405 | every `ray_mask[dir][sq]` entry is filled by the ray walk |
| `Tables.WalkRay` | src/generator.cpp:388-403 | the inner loop stops at the edge or on a file wrap and collects exactly the ray |
| `Tables.RayFromShape` | src/generator.cpp:394-402 | every collected square lies on the ray's side, and consecutive squares differ by at most one file |
| `Tables.RayMaskShape` | src/generator.cpp:382-405 | a ray never contains its own square, goes up for indices 0-3 and down for 4-7, and never wraps across an edge |
| `Tables.RayFromBeyond` | src/generator.cpp:394-402 | the part of a ray beyond one of its squares is the ray that continues from that square |
| `Tables.RayMaskBeyond` | src/generator.cpp:382-405 | `ray_mask[d][b]` for `b` on `ray_mask[d][sq]` is the part of the latter beyond `b` |
| `Tables.RayStep` | src/generator.cpp:394-399 | a non-wrapping step moves one rank and one file as the direction says |
| `Tables.RayCoords` | src/generator.cpp:382-405 | the squares of ray `d` lie `j >= 1` whole steps away along the direction |
| `Tables.RayAligned` | src/generator.cpp:382-405 | every square of a ray shares a rank, file or diagonal with the ray's origin |
| `Tables.BuildFileMasks` | src/generator.cpp:407-435 | `file_mask`, `rank_mask` and `adjacend_file_mask` hold the file, the rank and the neighbouring files, with the edge cases for files 0 and 7 |
| `Tables.AdjacentFileMaskExact` | src/generator.cpp:419-435 | the adjacent-file mask of `f` holds exactly the squares one file away from `f` |
| `Tables.BuildPassedPawnMask` | src/generator.cpp:438-457 | both passed-pawn tables are filled for all 64 squares |
| `Tables.PassedPawnMaskExact` | src/generator.cpp:438-457 | white's mask is the squares on ranks above and within one file; black's the ranks below |
| `Tables.DistanceBonus` | src/generator.cpp:458-466 | the bonus lies in 0..3, is 0 exactly at Chebyshev distance 3 or more and 3 exactly on the king's square |
| `Tables.BuildDistanceBonus` | src/generator.cpp:458-466 | every table entry is `max(0, 3 - chebyshev(k, a))` |
| `Tables.CalculateRookBlockerMask` | src/generator.cpp:77-88 | the mask holds the rank and file squares of `sq`, without `sq` and without the edge squares |
| `Tables.RankBlockerLoops` | src/generator.cpp:82-83 | the two rank loops add files 1..6 of the rank other than the rook's own |
| `Tables.FileBlockerLoops` | src/generator.cpp:85-86 | the two file loops add ranks 1..6 of the file other than the rook's own |
| `Tables.RookBlockersSize` | src/generator.cpp:95-98 | a blocker mask has between 1 and 63 squares, so the shift `64 - relevant_bits` is in range |
| `Tables.Decrement` | src/generator.cpp:73 | `subset - 1` on the bit set has value one less |
| `Tables.NextSubset` | src/generator.cpp:73 | `(subset - 1) & mask` stays within the mask and is numerically smaller |
| `Tables.CarryRipplerComplete` | src/generator.cpp:71-74 | the step `(subset - 1) & mask` skips no subset: every subset of the mask below the current one is at most the next one |
| `Tables.ValueInjective` | src/generator.cpp:71-74 | two bit sets with the same 64-bit value are the same set, so the numeric order of the loop decides membership |
| `Tables.GenerateBlockerSubsets` | src/generator.cpp:68-76 | pushes 0 first, then the mask, then subsets of the mask in strictly decreasing order, so no subset twice; every subset of the mask is pushed |
| `Tables.SubsetsStep` | src/generator.cpp:71-74 | one loop turn keeps the pushed subsets ordered, within the mask and above the next subset |
| `Tables.IsMagicNumber` | src/generator.cpp:95-109 | true exactly when no two listed blocker sets map to the same index `(blockers * magic) >> (64 - bits)`; over the square's full subset list, exactly when different blocker sets get different indices |
| `Tables.FindAllCombinations` | src/generator.cpp:89-94 | `rook_blocker_combinations[sq]` holds every subset of the square's rook blocker mask exactly once, 0 first and the mask second |
| `Tables.DistinctOverSubsets` | src/generator.cpp:95-109 | over a list that enumerates the subsets of a mask, "no two entries share an index" is "no two different subsets share an index" |
| `Tables.DistinctIndices` | src/generator.cpp:100-108 | the loop returns false on the first index seen twice and true when all indices differ |
| `Moves.NullMove` | include/Move.h:16-26 | the default move has from and to -1, no pieces, white colour, no flags; with the Move.h fields, an empty castling string and en-passant square -1 (Move.h:16-28) |
| `Moves.MakeMove` | Move.h:29-41 | the full constructor stores every argument, the old castling rights and old en-passant square included, verbatim |
| `Moves.CaptureSquare` | include/Move.h:41-51 | the destination for a normal move; 8 squares behind it (`to-8` for white, `to+8` for black) for en passant |
| `Moves.CaptureColor` | include/Move.h:52-54 | the captured side is never the mover's colour |
| `Moves.SameMoveEquivalence` | include/Move.h:55-59 | `operator==` is reflexive, symmetric and transitive |
| `Moves.SameMoveIgnoresRest` | include/Move.h:55-59 | changing the moved or captured piece, colour, flags or undo snapshot leaves a move `==` to itself |
| `Moves.SameMove` | include/Move.h:55-59 | `operator==` holds for identical moves, and two `==` moves are both real or both unset (symmetry and transitivity in `SameMoveEquivalence`) |
| `Moves.IsDoublePawnMove` | include/Move.h:38-40 | a double pawn move is a pawn move that stays on its file and changes rank by exactly two |
| `Moves.GetInt` | include/Move.h:60-67 | the code fits in 16 bits and is `1 << 15` exactly for a move with a -1 square |
| `Moves.GetIntFields` | include/Move.h:60-67 | for a real move bit 15 is clear, and from, to and the promotion index are read back from bits 0-5, 6-11 and 12-15 |
| `Moves.GetIntRespectsEquality` | include/Move.h:55-67 | `==` moves have equal codes, and two real moves with one code are `==` |
| `Moves.MoveList.Contents` | include/Move.h:69-76 | the moves in use are exactly `count` slots |
| `Moves.MoveList.constructor` | include/Move.h:69-70 | a new list has an empty, freshly allocated 256-slot buffer |
| `Moves.MoveList.PushBack` | include/Move.h:71 | writes slot `count`, changes no other slot and increments `count`, so the contents gain the move at the end |
| `Moves.MoveList.Size` | include/Move.h:75 | the size lies between 0 and the capacity 256 |
| `Moves.MoveList.Empty` | include/Move.h:76 | `empty()` holds exactly when no move is in use |
| `Moves.MoveList.Clear` | include/Move.h:77 | resets the count to 0 and leaves the buffer in place |
| `Moves.MoveList.SwapItems` | include/Move.h:78-80 | exchanges the two slots, changes no other, and keeps the multiset of moves |
| `Zobrist.XorFromEmpty` | src/board.cpp:157-167 | hashing an empty board XORs in nothing |
| `Zobrist.XorAssoc` | src/board.cpp:357-379 | XOR of hash words is associative, so the order in which keys are folded in does not matter |
| `Zobrist.XorComm` | src/board.cpp:357-379 | XOR of hash words is commutative |
| `Zobrist.XorCancel` | src/board.cpp:294-306 | XORing one key in twice cancels, which is what lets `XOR_hash_rights` remove the old rights |
| `Zobrist.XorZero` | src/board.cpp:154-155 | XOR with the zero word leaves a word unchanged |
| `Zobrist.XorFromToggle` | src/board.cpp:157-167 | toggling square `x` changes the partial hash from `i` by `key(x)` exactly when `x >= i` |
| `Zobrist.XorOfToggle` | src/board.cpp:357-420 | toggling a square in a piece board XORs that square's key into the board's hash |
| `Zobrist.XorOfRemove` | src/board.cpp:160-165 | splitting off the lowest bit, as the `get_lsb` / `b &= b-1` loop does, splits off its key |
| `Zobrist.ApplyFlips` | src/board.cpp:381-420 | toggling a list of squares in a row of boards keeps the number of boards |
| `Zobrist.EmptyBoards` | src/board.cpp:122-132 | `n` empty piece boards |
| `Zobrist.FlipDelta` | src/board.cpp:381-420 | the net effect of a toggle list has one entry per board |
| `Zobrist.ApplyFlipsIsXor` | src/board.cpp:381-420 | a toggle list acts on each board as an XOR with the squares it toggles an odd number of times |
| `Zobrist.ApplyFlipsTwice` | src/board.cpp:213-237 | applying the same toggles twice, as `undo_move` replays `update_pieces`, restores every board |
| `Zobrist.ApplyFlipsUntouched` | src/board.cpp:381-420 | a board no toggle names is unchanged |
| `Zobrist.BoardsHashToggle` | src/board.cpp:357-380 | toggling one square of board `k` XORs that board's key for the square into the hash over boards `0..n-1` when `k < n`, and changes nothing else |
| `Zobrist.BoardsHashFlips` | src/board.cpp:357-420 | the piece hash of the toggled boards is the old one with each toggle's key XORed in, in order |
| `BoardSetup.FillMap` | src/board.cpp:48 | `std::fill` sets all 64 map entries to '.' |
| `BoardSetup.PlacePieces` | src/board.cpp:46-71 | on empty boards, succeeds exactly when the placement parses, leaving the piece boards and the map the parsed placement describes |
| `BoardSetup.PlaceLetter` | src/board.cpp:58-67 | a piece letter sets its bit in its board and writes the map, or fails where the letter names no board |
| `BoardSetup.LetterIndex` | src/board.cpp:60-62 | the colour comes from the case and the piece from `PIECE_TYPE_MAP`; an unknown letter or '.' has no board |
| `BoardSetup.AddBit` | src/board.cpp:64 | setting one bit changes that one piece board only, adding exactly that square |
| `BoardSetup.SetSquare` | src/board.cpp:65 | writes one map entry and no other |
| `BoardSetup.UnionLoop` | src/board.cpp:122-132 | each colour's board is the union of its six piece boards |
| `BoardSetup.HashBits` | src/board.cpp:157-165 | the inner loop XORs in the keys of exactly the bits of one board |
| `BoardSetup.HashBitStep` | src/board.cpp:161-163 | moving one bit's key from the board to the hash keeps their XOR |
| `BoardSetup.PiecesHash` | src/board.cpp:154-167 | the piece part of `initialize_hash` is the XOR of the keys of every set bit of every board |
| `BoardSetup.MaterialStep` | src/board.cpp:188-190 | one more board adds `popcount * PIECE_VALUES[color][piece]` to the sum |
| `BoardSetup.MaterialLoop` | src/board.cpp:185-193 | `initialize_material_score` is the signed material of the twelve boards |
| `Fen.SplitFrom` | src/board.cpp:29-31 | the `getline(ss, item, ' ')` fields never contain a space |
| `Fen.SplitFields` | src/board.cpp:25-31 | the fields of a FEN string contain no space |
| `Fen.SplitFen` | src/board.cpp:25-31 | the `getline` loop collects exactly those fields, in order |
| `Fen.SplitFromWord` | src/board.cpp:29-31 | reading a run of non-space characters only extends the current field |
| `Fen.SplitJoin` | src/board.cpp:29-31 | splitting undoes joining with single spaces, for space-free fields whose last one is non-empty |
| `Fen.JoinSplitFrom` | src/board.cpp:29-31 | joining the fields read from a string that does not end in a space gives the string back |
| `Fen.JoinSplit` | src/board.cpp:29-31 | joining undoes splitting for a non-empty string without a trailing space |
| `Fen.DigitValue` | src/board.cpp:55-56 | `c - '0'` of a decimal digit lies in 0..9 |
| `Fen.LeadingDigits` | src/board.cpp:95-100 | counts exactly the leading decimal digits |
| `Fen.SkipSpaces` | src/board.cpp:95-100 | drops a prefix, stopping at the first non-space |
| `Fen.LeadingValue` | src/board.cpp:95-100 | there is a value exactly when the text starts with a digit |
| `Fen.Stoi` | src/board.cpp:95-100 | `std::stoi` yields a value in the `int` range or throws (`None`) |
| `Fen.DigitChar` | src/board.cpp:95-100 | the character of a digit value is a digit that reads back as that value |
| `Fen.Decimal` | src/board.cpp:95-100 | decimal text is non-empty and made of digits |
| `Fen.DecimalValue` | src/board.cpp:95-100 | the digits of `Decimal(n)` have value `n` |
| `Fen.LeadingDigitsAll` | src/board.cpp:95-100 | text made only of digits is one run of leading digits |
| `Fen.LeadingValueDecimal` | src/board.cpp:95-100 | the leading value of `Decimal(n)` is `n` |
| `Fen.StoiDecimal` | src/board.cpp:95-100 | the half-move and move fields read back every non-negative `int` written in decimal |
| `Fen.StoiNegativeDecimal` | src/board.cpp:95-100 | and every negated one after a minus sign |
| `Fen.StoiMinus` | src/board.cpp:95-100 | a minus sign before digits of value `v` reads as `-v` |
| `Fen.StoiNoDigits` | src/board.cpp:95-100 | text with no digit where one must come makes `stoi` throw |
| `Fen.ParseTurn` | src/board.cpp:73-75 | the turn is white exactly for the field "w"; anything else is black |
| `Fen.ParseCastling` | src/board.cpp:76-82 | "-" gives no rights; any other field is kept verbatim |
| `Fen.ParseEnPassant` | src/board.cpp:84-94 | "-" gives -1; the empty field would read past its end and fails |
| `Fen.SquareName` | src/board.cpp:84-94 | a square name is a file letter a-h then a rank digit 1-8 |
| `Fen.ParseEnPassantSquareName` | src/board.cpp:84-94 | every square name reads back as its square |
| `Fen.StartPlacement` | src/board.cpp:48-50 | the loop starts at rank 7, file 0, with empty boards and a map of '.' |
| `Fen.LetterBoard` | src/board.cpp:60-62 | a character names a board exactly when it is one of `PNBRQKpnbrqk` |
| `Fen.PlaceChar` | src/board.cpp:51-69 | one placement character keeps twelve boards and a 64-entry map |
| `Fen.LetterBoardCases` | src/board.cpp:60-62 | the board is `color_index * 6 + piece index`, the colour coming from the case; unknown letters and '.' name no board |
| `Fen.PlaceLetterSome` | src/board.cpp:58-67 | a known letter on an on-board square sets that bit and map entry and moves one file on |
| `Fen.PlaceLetterNone` | src/board.cpp:58-67 | an unknown letter, '.', or a square off the board makes the placement fail |
| `Fen.PlaceAll` | src/board.cpp:51-70 | reading the whole field keeps the placement well shaped |
| `Fen.PlaceAllStep` | src/board.cpp:51-70 | reading one more character is one more loop turn |
| `Fen.PlaceAllFails` | src/board.cpp:51-70 | once a character fails, the whole placement fails |
| `Fen.PlaceCharKeepsMapInBoards` | src/board.cpp:64-65 | every map entry keeps its bit in its letter's board after one character |
| `Fen.PlaceAllKeepsMapInBoards` | src/board.cpp:51-70 | the same over the whole field |
| `Fen.ParseFenPlacementFails` | src/board.cpp:32-35 | a FEN whose placement fails is rejected |
| `Fen.ParseFenRestCases` | src/board.cpp:32-43 | with a good placement, `parse_fen` succeeds exactly when the en-passant and both counter fields do, and then stores each field's parse |
| `Fen.ParseFen` | src/board.cpp:24-44 | a successful parse had exactly six fields; anything else throws |
| `Fen.ParseFenMapInBoards` | src/board.cpp:24-71 | after a successful parse each letter in the map has its bit in its board |
| `Position.BoardIndex` | src/board.cpp:519-521 | `pieces[color][piece]` sits at `color * 6 + piece` of the flattened row, inside the twelve boards |
| `Position.Reached` | src/board.cpp:382 | `piece_reached` is the promotion piece when there is one, else the moved piece |
| `Position.Changes` | src/board.cpp:381-420 | the toggles `update_pieces` makes all name real pieces |
| `Position.MoverChanges` | src/board.cpp:383-389 | the moved piece leaves `from` and the reached piece arrives on `to` |
| `Position.CaptureChanges` | src/board.cpp:391-399 | the captured piece leaves the capture square, behind `to` for en passant |
| `Position.CastleChanges` | src/board.cpp:401-410 | the castling rook leaves its old square and arrives on its new one |
| `Position.PieceFlips` | src/board.cpp:381-420 | the changes as toggles of the twelve piece boards |
| `Position.ColorFlips` | src/board.cpp:381-420 | the changes as toggles of the two colour boards |
| `Position.AllFlips` | src/board.cpp:381-420 | the changes as toggles of `all_pieces` |
| `Position.UpdatePieces` | src/board.cpp:381-420 | `update_pieces` keeps the board arrays' shape |
| `Position.HomeSquare` | src/board.cpp:325-335 | each right's rook home square is one of h1, a1, h8, a8 |
| `Position.LostRights` | src/board.cpp:307-335 | a right is lost exactly when the own king moves or the move leaves or lands on that right's rook square |
| `Position.KingMoveLosesBoth` | src/board.cpp:311-323 | a king move forfeits both rights of its colour |
| `Position.RemoveIfRights` | include/utils.h:69-74 | erasing a right's letter under a condition removes exactly that right |
| `Position.KingEditsRights` | src/board.cpp:311-323 | the king block removes exactly the mover's two rights when the king moves |
| `Position.SquareEditsRights` | src/board.cpp:325-335 | a block of square tests removes exactly the rights whose rook home is that square |
| `Position.CastleRightsStringAgrees` | src/board.cpp:307-340 | the string edits of `update_castle_rights` remove exactly the forfeited rights |
| `Position.MapAfterMake` | src/board.cpp:421-445 | the make half of `update_piece_map` keeps 64 entries |
| `Position.MapAfterUndo` | src/board.cpp:446-466 | the undo half keeps 64 entries |
| `Position.UpdatePieceMap` | src/board.cpp:421-469 | `update_piece_map` keeps the board's shape |
| `Position.Make` | src/board.cpp:213-224 | `make_move` keeps the board's shape |
| `Position.Undo` | src/board.cpp:225-237 | `undo_move` keeps the board's shape |
| `Position.MakeFields` | src/board.cpp:213-224 | after `make_move`: the boards are toggled by the move's changes, the map updated, the side flipped, the forfeited rights removed, the en-passant square set, the hash XORed as written and the material moved by the balance |
| `Position.UndoFields` | src/board.cpp:225-237 | after `undo_move`: the same toggles, the map restored, the side flipped, the rights and en-passant square taken from the move's snapshot, the hash XORed as written |
| `Position.FlipKeysIsXor` | src/board.cpp:357-380 | the piece keys of a move XOR one fixed word, whatever the starting hash |
| `Position.FlipKeysTwice` | src/board.cpp:213-237 | the piece-key part of the hash is its own inverse |
| `Position.FlipBaseTwice` | src/board.cpp:294-306 | XORing the same rights and en-passant keys twice cancels |
| `Position.AllFlipsTwice` | src/board.cpp:381-420 | `all_pieces` toggled twice is unchanged |
| `Position.MakeUndoRestores` | src/board.cpp:213-237 | `undo_move` after `make_move` restores every bitboard, the side, the rights, the en-passant square, the hash, the material and the counters, given the move's snapshot |
| `Position.PieceMapRestores` | src/board.cpp:421-469 | on a map that fits the move, the undo half of `update_piece_map` reverses the make half |
| `Position.MakeUndoIdentity` | src/board.cpp:213-237 | on a fitting piece map, `undo_move` after `make_move` gives back the very same board |
| `Position.MakeCastleRights` | src/board.cpp:307-340 | after `make_move` the rights only shrink, each kept exactly when not forfeited |
| `Position.MakeEnPassant` | src/board.cpp:341-356 | the en-passant square is set only after a double pawn push, and then to the square skipped |
| `Position.MakeMaterial` | src/board.cpp:238-247 | the material score moves by the move's balance: unchanged for a quiet move, up for a white capture, down for a black one |
| `Position.ZobristOfSplit` | src/board.cpp:154-184 | the full hash splits into the piece part, the side key, and the rights and en-passant keys |
| `Position.TurnWordFlip` | src/board.cpp:279-282 | XORing the black-to-move key turns one side's word into the other's |
| `Position.XorRegroup` | src/board.cpp:213-224 | the XORs of `make_move` regroup into the hash of the new position |
| `Position.MakeKeepsHashConsistent` | src/board.cpp:213-224 | `make_move` keeps the incremental hash equal to `initialize_hash` of the new position, for every playable move |
| `Position.XorRegroupUndo` | src/board.cpp:225-237 | the XORs of `undo_move` regroup likewise |
| `Position.UndoKeepsHashConsistent` | src/board.cpp:225-237 | `undo_move` keeps the hash consistent, whatever snapshot the move carries |
| `Position.NullMoveRoundTrip` | src/board.cpp:565-580 | `undo_null_move` with the square `make_null_move` returned gives back the same board |
| `Position.NullMoveKeepsHashConsistent` | src/board.cpp:565-573 | a null move keeps the hash consistent and leaves no en-passant square |
| `Position.UndoNullMoveKeepsHashConsistent` | src/board.cpp:574-580 | undoing a null move keeps the hash consistent for any square handed back |
| `Position.UnionOfMember` | src/board.cpp:122-132 | a square is in the union of a colour's boards exactly when one of them holds it |
| `Position.CoherentOccupancy` | src/board.cpp:122-132 | after `initialize_board`, a square is occupied exactly when some piece board holds it |
| `Position.SwapColors` | include/constants.h:34-37 | exchanging the colours keeps twelve boards |
| `Position.MirroredTerm` | include/constants.h:34-37 | black's piece values are white's negated |
| `Position.MaterialUpToHalves` | src/board.cpp:185-193 | black's half of the material sum is the negated white half of the colour-swapped boards |
| `Position.MaterialUpToSwapped` | src/board.cpp:185-193 | and the other way round |
| `Position.MaterialMirrored` | src/board.cpp:185-193 | exchanging the colours of every piece negates the material score |
| `BoardState.ChangeSnoc` | src/board.cpp:381-420 | one more change toggles one more bit in its piece board, its colour board and `all_pieces` |
| `BoardState.ChangeSnocKeys` | src/board.cpp:357-380 | one more change XORs one more piece key into the hash |
| `BoardState.XorPair` | src/board.cpp:408-410 | an XOR with the two-square rook mask is the two single toggles |
| `BoardState.RookPairSnoc` | src/board.cpp:401-411 | the castling rook's mask XOR is the two changes of the rook, on all three rows |
| `BoardState.RookPairBoards` | src/board.cpp:408-410 | two single toggles of one board are one XOR with the two-square mask |
| `BoardState.HashMover` | src/board.cpp:358-361 | the keys of the mover on `from` and of the reached piece on `to` |
| `BoardState.HashCapture` | src/board.cpp:362-367 | the key of the captured piece on the capture square |
| `BoardState.HashCastle` | src/board.cpp:368-377 | the keys of the castling rook on its old and new squares |
| `BoardState.FoldStep` | src/board.cpp:470-513 | one step of the attacker scan either stops at the bound or continues with the rest |
| `BoardState.LeaperStep` | src/board.cpp:474-485 | the pawn or knight step adds the number of hits and, when a square is wanted, reports the lowest hit |
| `BoardState.FoldAppend` | src/board.cpp:470-513 | the later steps run only when the earlier ones did not reach the bound |
| `BoardState.ScanStep` | src/board.cpp:489-499 | one ray's first blocker counts exactly when it is one of the sliders, and the scan stops at the bound |
| `BoardState.RayStep` | src/board.cpp:489-499 | the body of one ray loop turn, matching the fold of the steps |
| `BoardState.ScanRays` | src/board.cpp:489-512 | each ray loop is the fold of its four rays, stopping once the count reaches `bound` |
| `BoardState.CountSteps` | src/board.cpp:470-513 | pawns, knights, diagonal rays and straight rays in order, returning at the bound |
| `BoardState.RightsHash` | src/board.cpp:294-306 | `XOR_hash_rights` XORs the word of the rights held and the en-passant file's key |
| `BoardState.MapMake` | src/board.cpp:422-445 | the make half of `update_piece_map` on the array |
| `BoardState.MapUndo` | src/board.cpp:446-466 | the undo half of `update_piece_map` on the array |
| `BoardState.ParseFenRest` | src/board.cpp:35-39 | the turn, castling, en-passant and counter fields are read; it fails exactly where one of them throws |
| `BoardState.Board.PieceBoards` | src/board.cpp:519-521 | the flattened boards are `pieces[k / 6][k % 6]` |
| `BoardState.Board.Model` | src/board.cpp:213-237 | the board's fields form a well-shaped position |
| `BoardState.Board.constructor` | include/board.h:64-125 | the arrays are fresh and empty before the FEN is read |
| `BoardState.Board.HoldsBoards` | src/board.cpp:519-521 | the arrays hold exactly the flattened boards |
| `BoardState.Board.BoardsOfHolds` | src/board.cpp:519-521 | arrays that hold a row of boards flatten to that row |
| `BoardState.Board.Setup` | src/board.cpp:15-23 | the `Board(fen)` constructor succeeds exactly when `parse_fen` does; then the board holds the FEN's fields, is coherent, and its hash and material agree with a recomputation |
| `BoardState.Board.ReadFen` | src/board.cpp:24-44 | `parse_fen` stores the six fields, or fails where it throws |
| `BoardState.Board.SetFenFields` | src/board.cpp:73-100 | the `parse_fen_*` assignments set the turn, rights, en-passant square and counters |
| `BoardState.Board.Initialize` | src/board.cpp:15-23 | after the initialisers the board is coherent, its hash is the recomputed hash and its material the recomputed material |
| `BoardState.Board.ParsePieces` | src/board.cpp:46-71 | `parse_fen_pieces` succeeds exactly when the placement parses, and leaves its boards and map |
| `BoardState.Board.InitializeBoard` | src/board.cpp:122-132 | each colour board is the union of its six boards and `all_pieces` the union of both |
| `BoardState.Board.InitializeHash` | src/board.cpp:154-184 | the recomputed hash of the position |
| `BoardState.Board.InitializeMaterialScore` | src/board.cpp:185-193 | white's material minus black's |
| `BoardState.Board.UpdateMaterialScore` | src/board.cpp:238-247 | changes only the material score, as `update_material_score` does |
| `BoardState.Board.XorHashRights` | src/board.cpp:294-306 | XORs the keys of the rights held and of the en-passant file into the hash |
| `BoardState.Board.UpdateCastleRights` | src/board.cpp:307-340 | applies the string edits on make and restores the move's snapshot on undo |
| `BoardState.Board.UpdateEnPassantRights` | src/board.cpp:341-356 | the square behind a double push, -1 otherwise, or the snapshot on undo |
| `BoardState.Board.XorPiece` | src/board.cpp:383-389 | one XOR on a piece board, its colour board and `all_pieces`, and nothing else |
| `BoardState.Board.TogglePiece` | src/board.cpp:383-399 | one piece toggled on one square is one more change on all three rows |
| `BoardState.Board.ToggleRookPair` | src/board.cpp:401-411 | the rook's mask XOR is two more changes |
| `BoardState.Board.UpdatePieces` | src/board.cpp:381-420 | `update_pieces` on the arrays matches the value model |
| `BoardState.Board.ToggleChanges` | src/board.cpp:381-420 | the three rows are toggled by exactly the move's changes |
| `BoardState.Board.ToggleMover` | src/board.cpp:382-389 | the mover off `from` and the reached piece onto `to` |
| `BoardState.Board.ToggleCapture` | src/board.cpp:391-399 | the captured piece off the capture square |
| `BoardState.Board.ToggleCastle` | src/board.cpp:401-411 | the castling rook moved with one mask |
| `BoardState.Board.UpdatePieceMap` | src/board.cpp:421-469 | `update_piece_map` on the array matches the value model |
| `BoardState.Board.UpdatePiecesHash` | src/board.cpp:357-380 | XORs the key of every square `update_pieces` toggles |
| `BoardState.Board.MakeMove` | src/board.cpp:213-224 | the nine steps of `make_move` in order give the value model's `Make` |
| `BoardState.Board.UndoMove` | src/board.cpp:225-237 | the steps of `undo_move` give the value model's `Undo`, with the rights taken from the move |
| `BoardState.Board.MakeNullMove` | src/board.cpp:565-573 | drops the en-passant square and its key, passes the turn, and returns the old square |
| `BoardState.Board.UndoNullMove` | src/board.cpp:574-580 | passes the turn back and restores the square handed in, with its key |
| `BoardState.Board.CountAttackerOnSquare` | src/board.cpp:470-515 | computes exactly the attack count and square the attack model defines |
| `BoardState.Board.InCheck` | src/board.cpp:559-564 | true exactly when the king of the side to move is attacked |
| `BoardState.Board.HasEnoughMaterialForNmp` | src/board.cpp:549-558 | true exactly when the side to move has a knight, bishop, rook or queen |
| `BoardState.Board.UpdateTurnRights` | src/board.cpp:279-282 | flips the side to move and XORs its key |
| `BoardState.RightsStepsAgree` | src/board.cpp:296-299 | the four letter tests XOR exactly the word of the rights the string holds |
| `Attacks.RayMasks` | src/board.cpp:492 | the eight entries are `RAY_MASK[dir][sq]` |
| `Attacks.SliderTerm` | src/board.cpp:492-497 | a ray adds an attacker only at its first blocker, and only when that blocker is one of the sliders |
| `Attacks.RaySteps` | src/board.cpp:489-512 | one ray loop is four steps |
| `Attacks.Steps` | src/board.cpp:470-513 | the scan is ten steps: pawns, knights, four diagonals, four lines |
| `Attacks.Terms` | src/board.cpp:470-513 | the ten steps for a square and an attacking colour |
| `Attacks.AttackInfo` | src/board.cpp:470-515 | `count_attacker_on_square` never returns a negative count (its relation to the attacker total is `AttackInfoBound`) |
| `Attacks.FoldCount` | src/board.cpp:479-511 | the early returns decide nothing about reaching the bound: the count reaches `bound` exactly when the full sum does, equals it below the bound, and never exceeds it |
| `Attacks.TotalNonNegative` | src/board.cpp:470-513 | non-negative steps have a non-negative sum |
| `Attacks.StepsNonNegative` | src/board.cpp:476-510 | no step takes attackers away |
| `Attacks.TermsNonNegative` | src/board.cpp:476-510 | the same for the steps read off a position |
| `Attacks.AttackInfoBound` | src/board.cpp:470-515 | `count_attacker_on_square` reaches `bound` exactly when the square has that many attackers; below the bound it returns the exact count |
| `Attacks.FoldNonNegative` | src/board.cpp:470-513 | the count never goes negative |
| `Attacks.TermsSquaresOnBoard` | src/board.cpp:478-509 | every step that adds attackers names a square on the board |
| `Attacks.FoldSquareOnBoard` | src/board.cpp:478-509 | once an attacker is found, the reported square stays on the board |
| `Attacks.AttackerSquareOnBoard` | src/board.cpp:470-515 | with `need_square`, a found attacker is reported on a square of the board |
| `Attacks.TermsShape` | src/board.cpp:474-512 | the steps are the pawn hits, the knight hits, the diagonal loop and the straight loop, in that order |
| `Attacks.RayPosition` | src/board.cpp:489-512 | each ray has a slot among the eight ray steps |
| `Attacks.StepRay` | src/board.cpp:489-512 | each ray step looks along one ray, the inverse of `RayPosition` |
| `Attacks.LoopStep` | src/board.cpp:489-512 | the step in ray `dir`'s slot is its loop's test of that ray |
| `Attacks.SliderTermIsHit` | src/board.cpp:491-497 | the loop test counts one attacker at the first blocker exactly when that blocker is a matching slider |
| `Attacks.RayStepIsHit` | src/board.cpp:489-512 | the step of ray `dir` counts one attacker, at its first blocker, exactly when the ray hits |
| `Attacks.SliderHitIff` | src/board.cpp:489-512 | some ray hits exactly when some ray step is positive |
| `Attacks.SliderStepCounts` | src/board.cpp:489-512 | a hit on a ray shows up as a positive step |
| `Attacks.StepCountsSlider` | src/board.cpp:489-512 | a positive ray step comes from a hit |
| `Attacks.TenPositive` | src/board.cpp:470-513 | ten non-negative steps sum to at least one exactly when one of them is positive |
| `Attacks.AttackerTotalPositive` | src/board.cpp:470-513 | a square has an attacker exactly when a pawn or knight hits it or a ray's first piece is a matching slider |
| `Attacks.TotalPositive` | src/board.cpp:470-513 | a non-negative sum is positive exactly when one term is |
| `Attacks.RayBlockerSkipsKing` | src/board.cpp:492-505 | the rays look through the defending king, so they never stop on it |
| `Attacks.InCheckIff` | src/board.cpp:559-564 | the side to move is in check exactly when its king has an attacker: a pawn, a knight, or a matching slider at the end of a ray |
| `MoveGen.KingSquare` | src/board.cpp:562 | the king square is a square of the mover's king board, the lowest one, and the only one when there is one king |
| `MoveGen.PieceOn` | src/board.cpp:528-530 | `get_piece_on_square` gives `NONE` exactly for '.', and otherwise the piece whose white or black letter stands on the square |
| `MoveGen.AttackedIs` | src/MoveGenerator.cpp:100 | the generators' attack test is `count_attacker_on_square` with bound 1, and holds exactly when the square has an attacker |
| `MoveGen.RightsStringRoundTrip` | src/MoveGenerator.cpp:106 | the castling snapshot stored in a move reads back as the position's rights |
| `MoveGen.NewMoveSnapshot` | src/MoveGenerator.cpp:105-106 | every generated move carries the undo snapshot of the position it was generated in |
| `MoveGen.NewMove` | src/MoveGenerator.cpp:105-106 | `emplace_back` stores the squares, pieces, flags, the side to move and the position's rights and en-passant square |
| `MoveGen.PinsUpTo` | src/MoveGenerator.cpp:66-90 | `pinned_info` keeps 64 entries while the directions are scanned |
| `MoveGen.PinnedInfo` | src/MoveGenerator.cpp:63-92 | `pinned_info` has an entry per square |
| `MoveGen.CalculatePinnedPieces` | src/MoveGenerator.cpp:63-92 | the fill and the eight-direction loop compute exactly the pin table |
| `MoveGen.PinStep` | src/MoveGenerator.cpp:71-89 | one direction records the pin on that ray, if any |
| `MoveGen.GeneratePieceMoves` | src/MoveGenerator.cpp:146-249 | the queen, rook, bishop and knight generators append exactly that piece type's moves |
| `MoveGen.AppendPieceMoves` | src/MoveGenerator.cpp:151-247 | the outer loop's body for one piece appends its destination moves; a pinned knight is skipped |
| `MoveGen.DestinationMask` | src/MoveGenerator.cpp:153-239 | the attack mask minus own pieces, inside the remedy and pin masks, and only enemy pieces under `captures_only` |
| `MoveGen.AppendTargetMoves` | src/MoveGenerator.cpp:164-168 | the inner loop appends one move per destination, lowest first |
| `MoveGen.AppendAssoc` | src/MoveGenerator.cpp:16-62 | appending to the move vector is associative |
| `MoveGen.GenerateSlidingMoves` | src/MoveGenerator.cpp:262-308 | the ray-walking generator appends the same moves as the magic-table generators |
| `MoveGen.SlidingTargets` | src/MoveGenerator.cpp:274-298 | one slider's destinations are its rays trimmed by the pin, remedy and colour masks |
| `MoveGen.RayUnion` | src/MoveGenerator.cpp:276-293 | the direction loop unions each ray cut after its first blocker, giving the piece's attack set |
| `MoveGen.RaysBelowAll` | src/MoveGenerator.cpp:276-293 | walking all directions of the piece gives the bishop, rook or queen attack set |
| `MoveGen.GenerateKingMoves` | src/MoveGenerator.cpp:93-144 | `generate_king_moves` appends the safe king steps, then the castling moves |
| `MoveGen.AppendKingSteps` | src/MoveGenerator.cpp:94-108 | the king steps to each non-own target the opponent does not attack, lowest first |
| `MoveGen.AppendCastles` | src/MoveGenerator.cpp:109-143 | nothing while the king is attacked, else kingside then queenside when allowed |
| `MoveGen.GeneratePawnPushes` | src/MoveGenerator.cpp:310-367 | `generate_pawn_pushes` appends the pushes of each pawn, lowest first |
| `MoveGen.AppendPushes` | src/MoveGenerator.cpp:322-364 | one pawn's single push (four promotions from the promotion rank) and double push from the start rank |
| `MoveGen.GeneratePawnCaptures` | src/MoveGenerator.cpp:368-444 | `generate_pawn_captures` appends each pawn's captures and en-passant capture |
| `MoveGen.AppendPawnCaptures` | src/MoveGenerator.cpp:386-404 | one capture per target, four promotions on the last rank |
| `MoveGen.AppendEnPassant` | src/MoveGenerator.cpp:406-437 | the en-passant capture when the masks allow it and no rank pin forbids it |
| `MoveGen.GeneratePawnMoves` | src/MoveGenerator.cpp:251-260 | pushes unless `captures_only`, then captures |
| `MoveGen.GenerateMoves` | src/MoveGenerator.cpp:16-62 | `generate_moves` returns exactly the legal-move list: king moves only in double check; king moves, then the others inside the remedy mask in single check; otherwise queen, rook, bishop, knight, pawn and king moves |
| `MoveGen.GenerateEvasions` | src/MoveGenerator.cpp:28-45 | the single-check branch: king moves, the four officers inside the remedy mask, pawns inside the pawn remedy mask |
| `MoveGen.GenerateUnchecked` | src/MoveGenerator.cpp:46-60 | the unchecked branch: officers, pawns, then king, all with the full mask |
| `MoveGen.GenerateOfficerMoves` | src/MoveGenerator.cpp:35-41 | queen, rook, bishop and knight generators in turn with one remedy mask |
| `MoveGen.GenerateCaptures` | src/MoveGenerator.cpp:445-447 | `generate_captures` is `generate_moves` with `captures_only` |
| `MoveGenFacts.TargetMovesMember` | src/MoveGenerator.cpp:164-168 | each move of the inner loop goes from the piece's square to one of its targets, capturing what stands there |
| `MoveGenFacts.PieceMovesOverMember` | src/MoveGenerator.cpp:151-171 | each move of a generator starts on a piece of that type and lands on that piece's targets |
| `MoveGenFacts.OfficerMovesMember` | src/MoveGenerator.cpp:146-249 | an officer move lands on an attacked square with no own piece, inside the remedy and pin masks, on an enemy piece under `captures_only`; a pinned knight never moves |
| `MoveGenFacts.PieceTargetsBounds` | src/MoveGenerator.cpp:162-238 | a piece's targets lie within its attacks and every mask the generators apply |
| `MoveGenFacts.KingStepMember` | src/MoveGenerator.cpp:97-108 | a king step lands on a target the opponent does not attack |
| `MoveGenFacts.KingMovesMember` | src/MoveGenerator.cpp:93-144 | the king list holds steps to unattacked neighbouring squares without own pieces (enemy pieces only under `captures_only`) and castles that pass the castling test |
| `MoveGenFacts.PushMovesMember` | src/MoveGenerator.cpp:322-364 | each push of one pawn is a single step onto an empty square inside the masks, or a double step from the start rank over an empty square |
| `MoveGenFacts.PushesOverMember` | src/MoveGenerator.cpp:320-365 | each push of the loop comes from one of the pawns scanned |
| `MoveGenFacts.CaptureMovesToMember` | src/MoveGenerator.cpp:386-404 | each capture goes to a target, captures what stands there, and promotes to an officer exactly on the last rank |
| `MoveGenFacts.PromotionsMember` | src/MoveGenerator.cpp:336-399 | the four promotions of one pawn move all promote to an officer |
| `MoveGenFacts.EnPassantMember` | src/MoveGenerator.cpp:406-437 | the en-passant capture goes to the en-passant square inside the masks, unless the rank pin forbids it |
| `MoveGenFacts.CapturesOverMember` | src/MoveGenerator.cpp:375-441 | each pawn capture of the loop is a capture or an en-passant capture of a scanned pawn |
| `MoveGenFacts.PawnMovesMember` | src/MoveGenerator.cpp:251-260 | the pawn list holds pushes (none under `captures_only`), captures and en-passant captures of the mover's pawns |
| `MoveGenFacts.LegalMovesSplit` | src/MoveGenerator.cpp:16-62 | a legal move comes from the king list, or from the other lists with no mask when unchecked and with the checker's remedy masks in single check |
| `MoveGenFacts.OtherListsMember` | src/MoveGenerator.cpp:146-444 | a non-king move is an officer or pawn move of the mover's, inside its pin mask and the remedy mask |
| `MoveGenFacts.LegalMovesStamped` | src/MoveGenerator.cpp:16-62 | every generated move is the mover's and carries the position's undo snapshot |
| `MoveGenFacts.DoubleCheckKingOnly` | src/MoveGenerator.cpp:25-27 | with two or more checkers only the king moves, and it does not castle |
| `MoveGenFacts.SingleCheckRemedy` | src/MoveGenerator.cpp:28-45 | in single check every non-king move lands on the checker, on the line to a slider checker, or takes en passant when the checker is a pawn |
| `MoveGenFacts.PinnedMovesStayOnLine` | src/MoveGenerator.cpp:63-234 | a non-king move keeps to its pin mask, and a pinned knight does not move |
| `MoveGenFacts.KingMoveFromKingList` | src/MoveGenerator.cpp:93-144 | a king move or castle comes from the king list |
| `MoveGenFacts.OtherListsNotKing` | src/MoveGenerator.cpp:146-444 | the other lists hold no king move and no castle |
| `MoveGenFacts.KingStepsUnattacked` | src/MoveGenerator.cpp:94-108 | a king step goes to a neighbouring square without an own piece that no enemy pawn, knight or slider attacks |
| `MoveGenFacts.CastlingSound` | src/MoveGenerator.cpp:109-143 | a castle needs the king unattacked and, on its side, the right, the empty squares and the unattacked squares the king crosses and lands on |
| `MoveGenFacts.NoAttacker` | src/MoveGenerator.cpp:100 | a square that passes the attack test has no attacker at all |
| `MoveGenFacts.CastlingComplete` | src/MoveGenerator.cpp:109-143 | with the king unattacked, each castle its test allows is in the list, `captures_only` or not |
| `MoveGenFacts.UncheckedWhenUnattacked` | src/MoveGenerator.cpp:22-24 | an unattacked king has no checkers |
| `MoveGenFacts.CastlesInUncheckedList` | src/MoveGenerator.cpp:46-60 | with no checker, the castles are in the legal list |
| `MoveGenFacts.OtherMove` | src/MoveGenerator.cpp:16-62 | a non-king legal move is an officer or pawn move read through the masks it was built with |
| `MoveGenFacts.KingMoveFromKingListContra` | src/MoveGenerator.cpp:93-144 | the king list holds only king moves |
| `MoveGenFacts.CapturesOnlyTargets` | src/MoveGenerator.cpp:94-256 | under `captures_only` every move but a castle or en passant lands on an enemy piece, and pawns only capture |
| `MoveGenFacts.PromotionShape` | src/MoveGenerator.cpp:332-399 | a promotion is a pawn move onto the last rank, to a queen, rook, bishop or knight |
| `MoveGenFacts.DoublePushFromStart` | src/MoveGenerator.cpp:346-358 | a double push starts on the start rank and crosses and lands on empty squares, never under `captures_only` |
| `MoveGenFacts.PawnAttackForward` | src/generator.cpp:240-288 | a pawn attacks one rank forwards, one file aside |
| `MoveGenFacts.EnPassantRankPin` | src/MoveGenerator.cpp:406-437 | en passant takes the pawn behind the en-passant square and is refused when, on the king's rank, the first piece beyond both removed pawns is an enemy rook or queen |
| `MoveGenFacts.FannedConcat` | src/MoveGenerator.cpp:16-62 | lists with full promotion fans concatenate to one |
| `MoveGenFacts.FannedWithoutPromotions` | src/MoveGenerator.cpp:16-62 | a list without promotions is trivially fanned |
| `MoveGenFacts.PromotionsOfOneMoveFanned` | src/MoveGenerator.cpp:336-339 | the four promotions of one move form a full fan |
| `MoveGenFacts.OfficerMovesFanned` | src/MoveGenerator.cpp:146-249 | officer lists hold no promotion |
| `MoveGenFacts.KingMovesFanned` | src/MoveGenerator.cpp:93-144 | the king list holds no promotion |
| `MoveGenFacts.PushMovesFanned` | src/MoveGenerator.cpp:330-344 | one pawn's pushes promote to all four officers or none |
| `MoveGenFacts.PushesOverFanned` | src/MoveGenerator.cpp:320-365 | so do all the pushes |
| `MoveGenFacts.CaptureMovesToFanned` | src/MoveGenerator.cpp:386-404 | one pawn's captures promote to all four officers or none |
| `MoveGenFacts.CapturesOverFanned` | src/MoveGenerator.cpp:375-441 | so do all the captures |
| `MoveGenFacts.PawnMovesFanned` | src/MoveGenerator.cpp:251-260 | the pawn list promotes in full fans |
| `MoveGenFacts.PromotionFanOut` | src/MoveGenerator.cpp:336-399 | a push to the last rank yields all four promotions: a legal promotion to one officer comes with the same move promoting to each of the others |
| `MoveGenFacts.PinOnRayShape` | src/MoveGenerator.cpp:71-88 | a ray records a pin exactly when its first piece is friendly and its second an enemy slider of the ray's kind; the mask is `LINE_BETWEEN[king][pinner]` without the king |
| `MoveGenFacts.PinMaskMissesKing` | src/MoveGenerator.cpp:85 | a pin mask leaves out the king square, so it is never the full mask |
| `MoveGenFacts.PinsUpToShape` | src/MoveGenerator.cpp:66-90 | after `n` directions an entry is full exactly when no ray below `n` pins it, else it is a recorded pin's mask |
| `MoveGenFacts.PinsUpToStep` | src/MoveGenerator.cpp:69-89 | one more ray changes an entry only when it pins that square |
| `MoveGenFacts.UnpinnedBelowAll` | src/MoveGenerator.cpp:69-89 | unpinned by all eight rays means no ray pins the piece |
| `MoveGenFacts.PinMaskShape` | src/MoveGenerator.cpp:63-92 | `pinned_info[sq]` is all squares unless a ray pins the piece on `sq`; then it is the line from the king to the pinner, the king square left out |
| `MoveGenFacts.PinnedByPins` | src/MoveGenerator.cpp:71-88 | a piece a ray pins is the one that ray records |
| `MoveGenFacts.RayAttacksShape` | src/MoveGenerator.cpp:280-289 | a slider's ray reaches each square of the ray up to and including the first occupied one |
| `Pieces.WhiteValue` | src/engine.cpp:333-334 | the white row of `PIECE_VALUES`, which move ordering and the exchange read for both sides: 100 to 20000 |
| `See.Exchange` | include/see.h:36-51 | each recapture is worth the piece last placed on the square minus the gain before it; at most one recapture per occupied square |
| `See.StartBoards` | include/see.h:12-25 | the local copies with the captured piece and the moving piece taken off |
| `See.Gains` | include/see.h:27-51 | the gain array starts with the captured value and has at most one more entry per other piece |
| `See.Resolve` | include/see.h:52-55 | the backward fold never exceeds the plain capture, and each side may stop capturing |
| `See.SeeCapture` | include/see.h:4-56 | `see_capture` returns the folded value of the exchange |
| `See.PlayOut` | include/see.h:36-51 | the loop fills the gain array with exactly the exchange's gains |
| `See.ExchangeStep` | include/see.h:40-50 | one recapture extends the entries written so far towards the whole exchange |
| `See.FoldGains` | include/see.h:52-55 | the backward `for` loop computes the fold of the filled entries |
| `See.SeeMove` | include/see.h:57-70 | zero for a king move, the exchange of the move's capture otherwise |
| `See.NoRecaptureWinsCaptured` | include/see.h:30-42 | with no recapturer the exchange is worth the captured piece |
| `See.SeeBounds` | include/see.h:4-56 | the exchange is worth at most the captured piece and at least the captured piece minus the moving one |
| `See.ExchangeLength` | include/see.h:27-51 | the exchange takes at most one recapture per piece left on the board |
| `Transposition.FlagIndex` | include/engine.h:13-18 | the four flags are the enumerators 0 to 3 |
| `Transposition.FlagOfIndex` | include/engine.h:44-46 | the cast of a 2-bit field is the flag with that enumerator value |
| `Transposition.Int16` | include/engine.h:38-40 | the `int16_t` read of a 16-bit pattern lies in the signed range and has that pattern |
| `Transposition.LayoutFields` | include/engine.h:29-35 | the six fields occupy disjoint bit ranges of one 64-bit word and each reads back through its shift and mask |
| `Transposition.Pack` | include/engine.h:26-58 | every accessor of a packed entry returns its own constructor argument reduced to its field width: the score's low 16 bits as `int16_t`, depth mod 256, the flag, generation mod 64, move and key mod 2^16 |
| `Transposition.PackUnpack` | include/engine.h:26-58 | arguments that fit their parameter types come back exactly; the generation keeps its low six bits |
| `Transposition.Int16Exact` | include/engine.h:30-40 | a 16-bit score survives the mask and the `int16_t` read |
| `Transposition.UnpackLayout` | include/engine.h:37-58 | any 64-bit word is the layout of its six fields |
| `Transposition.UnpackPack` | include/engine.h:26-58 | repacking the accessors of an entry gives the same word |
| `Transposition.PackFieldsIndependent` | include/engine.h:29-35 | two entries that share one constructor argument agree on that accessor whatever the other arguments |
| `Transposition.DefaultEntryEmpty` | include/engine.h:22-25 | the default entry is empty and every other field of it is 0 |
| `Transposition.PackDepth255Empty` | include/engine.h:23-31 | an entry stored with depth 255 reads as empty |
| `Transposition.DistMod64` | include/engine.h:220-223 | the generation distance lies in 0 to 32 |
| `Transposition.DistShortest` | include/engine.h:220-223 | the distance is the shorter of the two ways round a circle of 64 |
| `Transposition.DistProperties` | include/engine.h:220-223 | the distance is symmetric and zero exactly for generations equal modulo 64 |
| `Transposition.StoreFlag` | src/engine.cpp:594-630 | tempered best line gives `TEMPERED`; otherwise the flag is lower bound, upper bound or exact exactly by where the score falls against the window, and a tempered sibling never allows exact |
| `Transposition.KeySlot` | src/engine.cpp:634-647 | the first slot holding the key, or -1 when none does |
| `Transposition.EmptySlot` | src/engine.cpp:648-657 | the first empty slot, or -1 when none is |
| `Transposition.ReplaceFrom` | src/engine.cpp:661-676 | the replacement loop ends on the slot chosen so far or a later slot |
| `Transposition.Replacement` | src/engine.cpp:661-677 | the replacement slot is a slot of the cluster, or -1 |
| `Transposition.ChooseSlot` | src/engine.cpp:633-690 | the slot written by a store is a slot of the cluster, or -1 |
| `Transposition.ReplacementChoice` | src/engine.cpp:661-689 | the store is skipped exactly when every slot is of the current generation and deeper than the new entry; otherwise the oldest slot is replaced, the shallowest and then the last of the oldest |
| `Transposition.ChooseSlotCases` | src/engine.cpp:634-690 | a same-key slot takes the store only when not deeper than it; else the first empty slot; else the replacement choice |
| `Transposition.ProbeNoKey` | src/engine.cpp:542-590 | with no entry of the key the probe misses and leaves both out-parameters as they were |
| `Transposition.Probe` | src/engine.cpp:537-590 | `probe_tt` on one cluster misses without touching the out-parameters when no entry has the key, and a hit comes from a deep enough, untempered entry of the key with a non-null move |
| `Transposition.ProbeFirstEntry` | src/engine.cpp:543-583 | at the first entry of the key: too shallow or tempered misses; exact hits unless the move is null; a bound outside the window hits unless the move is null |
| `Transposition.ProbeHitSound` | src/engine.cpp:542-590 | a hit comes from a deep enough, untempered entry of the key with a non-null move, whose score and move are returned |
| `Transposition.ProbeCluster` | src/engine.cpp:542-590 | the loop over the four slots computes the probe |
| `Transposition.ClusterCount` | src/engine.cpp:746-751 | a table of `mb` megabytes holds `mb * 32768` clusters of 32 bytes, and at least one |
| `Transposition.FindSlot` | src/engine.cpp:634-677 | the three slot loops of the store compute the slot choice |
| `Transposition.Table.Size` | src/engine.cpp:746-751 | the table holds four entries per cluster and at least one cluster |
| `Transposition.Table.Base` | src/engine.cpp:540-633 | the cluster of a hash is `hash % tt.size()`, four slots inside the table |
| `Transposition.Table.Cluster` | src/engine.cpp:540-633 | the four entries of the cluster of a hash |
| `Transposition.Table.constructor` | src/engine.cpp:746-751 | a new table has the cluster count of its size, every entry default (empty) and generation 0 |
| `Transposition.Table.NextGeneration` | src/engine.cpp:51 | a search increments the generation and leaves the entries alone |
| `Transposition.Table.ProbeTT` | src/engine.cpp:537-591 | probing the table is the probe of the hash's cluster with its top 16 bits; the table does not change |
| `Transposition.Table.StoreTT` | src/engine.cpp:593-693 | storing writes the packed result into the chosen slot of the hash's cluster or nowhere, nothing else changes, and returns whether the best line was tempered |
| `Transposition.StoreTouchesOneSlot` | src/engine.cpp:633-690 | a store changes at most one slot, and only inside its cluster |
| `Bits.TruncDiv` | src/engine.cpp:522-523 | C++ integer division: Euclidean on non-negative numerators, zero for numerators smaller than the divisor in size |
| `Bits.TruncDivOdd` | src/engine.cpp:335 | truncating division is odd: negating the numerator negates the quotient, as the capture tiebreak relies on |
| `Search.DefaultLimits` | include/engine.h:75-85 | default limits: no depth, move time, clocks, nodes or mate, zero increments, not infinite |
| `Search.ClockBudget` | src/engine.cpp:522-523 | a fortieth of the time left plus the increment, capped at half the time left |
| `Search.DecideTimeControl` | src/engine.cpp:512-536 | the depth limit, then move time, then the side to move's clock budget, then an unbounded search for a depth limit or `infinite`, then the default time |
| `Search.ClockBudgetBounds` | src/engine.cpp:518-524 | with time left the budget is between zero and half the time left, and at least the increment when that fits |
| `Search.DefaultLimitsTimeControl` | src/engine.cpp:512-536 | default limits give the default time and an unbounded depth |
| `Search.TimeControlIgnoresOtherIncrement` | src/engine.cpp:519-520 | the budget of the side to move does not depend on the other side's increment |
| `Search.FutilityPruneIff` | src/engine.cpp:694-701 | futility pruning happens exactly for quiet moves out of check at depth 1 or 2 whose evaluation plus 200 or 400 does not reach alpha |
| `Search.ShouldFutilityPrune` | src/engine.cpp:694-701 | `should_futility_prune` prunes only quiet moves out of check at depth 1 or 2 whose evaluation is at least 200 below alpha (the exact condition is `FutilityPruneIff`) |
| `Search.FutilityMonotone` | src/engine.cpp:694-701 | a lower evaluation or a higher alpha never turns pruning off |
| `Search.LateMoveReduction` | src/engine.cpp:702-709 | the reduction is 0 or 2 |
| `Search.LateMoveReductionIff` | src/engine.cpp:702-709 | the reduction is 2 exactly for a quiet non-killer move after the first three at depth 3 or more |
| `Search.LateMoveReductionMonotone` | src/engine.cpp:702-709 | deeper or later moves are reduced at least as much |
| `Search.NullMoveAllowedIff` | src/engine.cpp:711-715 | the null-move search is tried exactly with no mate score in the window, depth 3 or more, out of check and with enough material |
| `Search.NullMoveAllowed` | src/engine.cpp:711-715 | the null-move search is tried only out of check, with enough material, at depth 3 or more and with both window bounds inside the mate threshold 9999872 |
| `Search.TerminalEval` | src/engine.cpp:730-735 | a position with no moves is mate in check and a draw otherwise, with no move |
| `Search.VictimValue` | src/engine.cpp:328 | the victim value of a promotion: zero exactly when nothing is captured |
| `Search.MoveStage` | src/engine.cpp:323-342 | the ordering stage lies in 1 to 6 |
| `Search.ScoreMoveStageOrder` | src/engine.cpp:323-343 | with sub-scores in (-50000, 50000) a higher stage always orders first |
| `Search.ScoreMove` | src/engine.cpp:323-343 | `score_move` gives the TT move 600000 (unless from depth 0), and a quiet non-killer move 200000 plus its history and pawn-push bonus |
| `Search.ScoreMoveTTFirst` | src/engine.cpp:326-343 | the TT move scores 600000, above every other move with a sub-score under 100000 |
| `Search.QuietPromotionReadsPastRow` | src/engine.cpp:327-328 | a quiet promotion makes the promotion branch read past the six-entry row of `PIECE_VALUES` |
| `Search.QuietPromotionScore` | src/engine.cpp:327-328 | with an empty victim counted as 0, a quiet promotion scores 500000 plus its piece's value |
| `Search.RecoverMoveFully` | src/engine.cpp:763-769 | the colour is the side to move, the pieces are read off the board, castle and double push are recognised by distance, everything else is kept |
| `Search.RecoverKeepsMove` | src/engine.cpp:763-769 | recovery keeps the move equal to the original and its packed form unchanged |
| `Search.IrreversibleNeverRepeats` | src/engine.cpp:752-762 | captures, pawn moves and castles never count as a possible repetition; other moves do exactly when a position has appeared more than twice |
| `Search.CouldRepeat` | src/engine.cpp:752-762 | `move_could_result_in_repetition` is true only for a non-capturing, non-pawn, non-castling move when a position has appeared more than twice |
| `Search.RelevantPawnPush` | src/engine.cpp:789-814 | zero for a piece move; between 0 and 175 for a pawn move |
| `Search.RelevantPawnPushMirrored` | src/engine.cpp:799-808 | the advance bonus is colour-symmetric: a square for White scores as its mirror for Black |
| `Search.ZeroMove` | include/engine.h:102-105 | a zero-filled move is a1 to a1 by a white pawn, capturing and promoting to a pawn |
| `Search.ThreadLocalData.constructor` | include/engine.h:107-108 | new tables hold null killers and zero history |
| `Search.ThreadLocalData.UpdateHistoryKiller` | src/engine.cpp:736-745 | a quiet move becomes the first killer of its ply, pushing the old one to the second slot; its history cell gains `depth * depth`; nothing else changes |
| `Search.ThreadLocalData.ClearHeuristics` | include/engine.h:102-105 | both tables are zero-filled |
| `Search.ZeroKillers` | include/engine.h:103 | every killer becomes the zero move |
| `Search.ZeroHistory` | include/engine.h:104 | every history cell becomes 0 |
| `Notation.FileOf` | src/notation_utils.cpp:8 | the file of a square is 0 to 7, and -1 only for the "no square" value under C's remainder |
| `Notation.RankOf` | src/notation_utils.cpp:9 | the rank of a square or of "no square" is 0 to 7 |
| `Notation.SquareParts` | src/notation_utils.cpp:7-11 | a square is its rank times eight plus its file |
| `Notation.FileChar` | src/notation_utils.cpp:8 | the file letter is 'a' to 'h', or the character before 'a' for "no square" |
| `Notation.RankChar` | src/notation_utils.cpp:9 | the rank digit is '1' to '8' |
| `Notation.SquareName` | src/notation_utils.cpp:7-11 | a square's name is two characters, file letter then rank digit |
| `Notation.SquareNameRoundTrip` | include/uci_helpers.h:6-13 | reading a square's name back as `parse_uci_move` does gives the square |
| `Notation.SquareNameInjective` | src/notation_utils.cpp:7-11 | different squares have different names |
| `Notation.PromotionLetter` | include/uci_helpers.h:17-27 | the promotion letter is one of `qrbn`, `q` by default |
| `Notation.PromotionOfLetter` | include/uci_helpers.h:52-63 | a letter outside `qrbn` is rejected; the others give the four promotion pieces |
| `Notation.PromotionLetterRoundTrip` | include/uci_helpers.h:17-27 | each promotion piece reads back from its letter |
| `Notation.MoveToUci` | include/uci_helpers.h:5-30 | four characters naming the from and to squares, plus the promotion letter for a promotion |
| `Notation.FirstUciMatch` | include/uci_helpers.h:69-77 | the first listed move with the squares, and the promotion if one was given; else no match |
| `Notation.ParseUci` | include/uci_helpers.h:40-78 | under four characters is an error, a bad fifth character is an error, a found move is listed with the decoded squares and promotion, and no match exactly when no listed move fits |
| `Notation.FindUciMove` | include/uci_helpers.h:69-77 | the matching loop finds the first matching move |
| `Notation.ParseUciMove` | include/uci_helpers.h:40-78 | parsing a UCI move searches the legal move list of the position |
| `Notation.UciRoundTripSquares` | include/uci_helpers.h:5-78 | the UCI text of a listed move finds a listed move with its squares and promotion piece |
| `Notation.UciRoundTrip` | include/uci_helpers.h:5-78 | on an unambiguous list, parsing the UCI text of a listed move gives that move |
| `Notation.PieceLetter` | src/notation_utils.cpp:18 | the piece letter comes from `PNBRQK.` |
| `Notation.PieceLetterInjective` | src/notation_utils.cpp:18 | different pieces have different letters |
| `Notation.Competitors` | src/notation_utils.cpp:36-43 | the competitors are exactly the listed moves of the same piece type to the same square from another square |
| `Notation.Disambiguation` | src/notation_utils.cpp:45-71 | nothing without competitors; else the from-file if no competitor shares it; else the from-rank if none shares that; else the from-square |
| `Notation.SanPieceShape` | src/notation_utils.cpp:18-72 | a piece move reads piece letter, disambiguation, capture mark, destination |
| `Notation.SanPawnShape` | src/notation_utils.cpp:22-33 | a pawn move starts with the from-file and `x` when capturing, else with the destination, and ends with `=` and the piece on promotion |
| `Notation.San` | src/notation_utils.cpp:13-75 | `to_san` writes a castle as O-O or O-O-O, and every other SAN except a pawn promotion ends with the destination square |
| `Notation.MiddleHead` | src/notation_utils.cpp:45-72 | after the piece letter comes the from-file, the from-rank or the whole from-square, as disambiguation chose |
| `Notation.SanDistinct` | src/notation_utils.cpp:36-72 | two listed moves of one piece type to one square from different squares get different SAN |
| `Notation.SanMatchFrom` | include/utils.h:103-108 | the first listed move from a point on with the given SAN, else the default move |
| `Notation.SanMatchStep` | include/utils.h:103-107 | one comparison of the `parse_move` loop |
| `Notation.ParseSan` | include/utils.h:102-110 | `parse_move` returns a listed move whose SAN is the text, or `Move()` when no listed move has that SAN |
| `Notation.ParseSanFinds` | include/utils.h:102-110 | a SAN that some listed move has is found, and the found move has it |
| `Notation.SameSanSameSquares` | src/notation_utils.cpp:18-72 | two listed moves with the SAN of a piece move have the same piece and squares |
| `Notation.SanRoundTrip` | include/utils.h:102-110 | reading back the SAN of a listed piece move finds a move of the same piece between the same squares |
| `Notation.CollectCompetitors` | src/notation_utils.cpp:36-43 | the competitor loop computes the competitors |
| `Notation.AnyOnFile` | src/notation_utils.cpp:46-53 | the `same_file` loop tells whether a competitor starts on the from-file |
| `Notation.AnyOnRank` | src/notation_utils.cpp:57-64 | the `same_rank` loop tells whether a competitor starts on the from-rank |
| `Notation.ToSan` | src/notation_utils.cpp:13-75 | `to_san` with its loops computes the SAN |
| `Notation.ParseMove` | include/utils.h:102-110 | `parse_move` with its loop computes the SAN search |
| `Evaluation.Flip` | src/evaluation.cpp:44-46 | the mirrored square keeps its file and takes the opposite rank |
| `Evaluation.EvalIsoPassedPawns` | src/evaluation.cpp:30-51 | the `get_lsb` loop adds up the isolated and passed terms of every pawn |
| `Evaluation.IsolatedMirror` | src/evaluation.cpp:38-39 | a pawn is isolated on the mirrored board exactly when it is on the board |
| `Evaluation.PassedMirror` | src/evaluation.cpp:44 | a pawn is passed for the other colour on the mirrored board exactly when it is passed on the board |
| `Evaluation.PassedBonusMirror` | include/constants.h:41 | black's passed-pawn bonus row is white's read from the other side |
| `Evaluation.PawnTermMirror` | src/evaluation.cpp:37-48 | a pawn of the other colour on the mirrored square scores the negation |
| `Evaluation.IsoPassedMirror` | src/evaluation.cpp:30-51 | isolated and passed terms are colour-mirrored: the other colour on the mirrored board scores the negation |
| `Evaluation.DoubledByFile` | src/evaluation.cpp:54-70 | one doubled-pawn score per file |
| `Evaluation.EvaluatePawnStructureScore` | src/evaluation.cpp:52-75 | the loop over the files plus both colours' isolated and passed terms compute the pawn-structure score |
| `Evaluation.StackedCount` | src/evaluation.cpp:54-70 | the pawns beyond the first on each file are the pawns less the files they occupy |
| `Evaluation.DoubledIsStacked` | src/evaluation.cpp:54-70 | the doubled-pawn score is the penalty times the difference of the two colours' extra pawns |
| `Evaluation.DoubledPawnCount` | src/evaluation.cpp:54-70 | every pawn beyond the first on its file costs its side 17 |
| `Evaluation.DoubledMirror` | src/evaluation.cpp:54-70 | the doubled-pawn score of the colour-swapped, mirrored pawns is the negation |
| `Evaluation.PawnStructureMirror` | src/evaluation.cpp:52-75 | swapping and mirroring the pawns negates the pawn-structure score |
| `Evaluation.RookByFile` | src/evaluation.cpp:133-154 | one open-file score per file |
| `Evaluation.EvaluateRookActivity` | src/evaluation.cpp:129-156 | the seventh-rank counts and the file loop compute the rook-activity score |
| `Evaluation.RookFileTermMirror` | src/evaluation.cpp:134-153 | a file's rook term of the colour-swapped, mirrored board is the negation |
| `Evaluation.RookFilesMirror` | src/evaluation.cpp:133-154 | the open-file terms of all files are colour-mirrored |
| `Evaluation.RookActivityMirror` | src/evaluation.cpp:129-156 | swapping and mirroring pawns and rooks negates the rook-activity score |
| `Evaluation.ClosedFileNeutral` | src/evaluation.cpp:134-153 | a file with pawns of both colours adds nothing for rooks |
| `Evaluation.BishopPair` | src/evaluation.cpp:157-168 | the bonus goes to the side alone in having two bishops; equal status gives 0 |
| `Evaluation.Slot` | src/evaluation.cpp:429 | the cache slot is in the table |
| `Evaluation.PawnLookup` | src/evaluation.cpp:436-458 | the entry used is valid and keyed by the pawn key |
| `Evaluation.Evaluation` | src/evaluation.cpp:351-482 | one evaluation keeps the cache size |
| `Evaluation.TableAfter` | src/evaluation.cpp:427-461 | the cache after an evaluation keeps its size |
| `Evaluation.PawnCache.constructor` | include/evaluation.h:19-20 | the static table starts with no valid entry |
| `Evaluation.PawnCache.ProbePawnCache` | src/evaluation.cpp:427-458 | a hit returns the cached scores, a miss computes them and stores them in the key's slot; the king safety is tapered by the phase |
| `Evaluation.PawnCache.Evaluate` | src/evaluation.cpp:351-482 | each term whose bit is set is added up, and the cache changes as the evaluation function says |
| `Evaluation.EvaluateLaterTerms` | src/evaluation.cpp:462-480 | the mobility, rook and bishop steps add their terms when their bits are set |
| `Evaluation.EmptyMaskScoresZero` | src/evaluation.cpp:351-482 | the empty mask scores 0 and leaves the cache alone |
| `Evaluation.CacheWritesOneSlot` | src/evaluation.cpp:427-461 | only the pawn-structure and king-safety bits touch the cache, and then only the key's slot, which ends valid for the key |
| `Evaluation.EvaluationRepeats` | src/evaluation.cpp:351-482 | evaluating again on the cache the first call left gives the same score and cache |
| `Evaluation.ConsistentCacheAgrees` | src/evaluation.cpp:427-461 | a cache entry holding this board's pawn scores gives the score of an evaluation from an empty cache |

## Left out

- Tree search: `negamax`, `quiescence_search`, `search_new`, iterative deepening, perft, `sort_moves`/`score_moves` and `score_quiet_moves`. They run on the clock, statistics counters and logging. Only the rules they call are modelled (`Search`, `Transposition`).
- Concurrency: `tt_load`/`tt_store` through `std::atomic_ref`, the thread pool and the atomic counters. TT slots are plain array cells, and the statistics counters of `probe_tt`/`store_tt` and `compute_tt_fill_rate` are not modelled.
- Floating point: the game phase, the tapered positional score and the double-valued root evaluation. `evaluate` takes the positional score (already divided by 24) and the phase as integer inputs (`Evaluation.Inputs`).
- King safety and mobility (`eval_king_safety_score`, `evaluate_mobility`): their scores are inputs of `evaluate`. `evaluate_center` and `evaluate_outpost` are not called by `evaluate` and are not modelled.
- Bonus constants of the evaluation data header (`BISHOP_PAIR_BONUS`, `ROOK_ON_SEVENTH_BONUS`, `OPEN_FILE_BONUS`, `SEMI_OPEN_FILE_BONUS`) are the parameter `Evaluation.Bonuses`. `INFINITE_TIME_MS`, `INFINITE_DEPTH` and `DEFAULT_TIME_MS` are the parameter `Search.TimeDefaults`.
- Zobrist key generation with `std::mt19937_64`: the keys are arbitrary values passed in.
- Magic rook/bishop tables and the empty-board bishop/rook/queen attack tables of src/generator.cpp:158-238. They are modelled by the ray cast they encode.
- `pick_least_attacker`, `recover_move_from_int`, `get_pawn_key`, `is_free_file`, `any_appeared_more_than` and the `KING_ZONE` lookup are not part of this model. They are parameters (`See.Picker`, a recovery function, `Evaluation.Inputs.pawnKey`, booleans and a zone bitboard).
- `king_shield_mask` and `king_zone` of src/generator.cpp:319-381 feed only king safety and the pawn-push bonus, which take them as inputs.
- I/O: `main`, the UCI loop, `display`, the print functions of src/generator.cpp:6-67 and the uncompilable stub at src/generator.cpp:110-113.
- The root copies `MoveGenerator.cpp`, `engine.h` and `evaluation.cpp` are earlier versions of the `src/` code. Only the undo-snapshot fields of the root `Move.h` are modelled, because `src/board.cpp` uses them.
- See.SeeCapture: requires a captured piece and at most 31 other pieces on the board. With no captured piece, `gain[0]` reads `PIECE_VALUES[0][6]` past its row (include/see.h:30). The 32-entry gain array has no bounds check.
- See.SeeMove: requires a captured piece for a non-king move, for the same reason as `SeeCapture`. The callers in `score_move` pass only captures.
- Notation.UciRoundTrip: holds on move lists in which a from/to pair and a promotion piece name one move. The generator's lists are not proved to be of that kind.
- Notation.SanRoundTrip: covers piece moves only. For pawn moves and castles the SAN shape is proved (`SanPawnShape`) but not the round trip.
- Notation.ParseUciMove: requires a position the generator can run on (`MoveGen.Ready`), as every other generator entry point does.
- Fen: a piece letter outside `PIECE_TYPE_MAP`, '.' and a square outside the board end parsing with an error. In the source they throw or write outside the arrays.
- Search.UpdateHistoryKiller: requires a real piece and square, which every generated move has. The history table is indexed by them.
- MoveGen.KingSquare: `get_king_square` and the cached king square kept by `update_king_square` (include/board.h:66 and :124) are not part of this model. The king square is taken the way `in_check` finds it, as `get_lsb` of the mover's king board (src/board.cpp:562).
- MoveGen.PieceOn: requires `MoveGen.MapReadable`, that every map character is a key of `PIECE_TYPE_MAP`. For any other character `PIECE_TYPE_MAP.at` throws, which is not modelled.
- Moves.MoveList.PushBack: requires a free slot (`count < 256`). `push_back` (include/Move.h:71) writes `moves[count]` with no bound check, so a 257th push writes past the buffer. The model does not capture that overflow.
- See.Exchange: every member of the `See` module (`Exchange`, `Gains`, `SeeValue`, `SeeCapture`, `PlayOut`, `ExchangeStep`, `SeeMove`, `NoRecaptureWinsCaptured`, `SeeBounds`, `ExchangeLength`) requires `See.PicksOccupied(pick)`. This means the `pick_least_attacker` parameter returns either nothing or a real piece on an occupied square. Removing that square from the occupancy is what ends the exchange. A picker that reported an empty square or `NONE` is not modelled.

## Findings

| source | as written | input that shows it | evidently intended | confidence | as-written member | corrected member |
|---|---|---|---|---|---|---|
| src/engine.cpp:328 | the promotion stage subtracts `PIECE_VALUES[WHITE][to_int(piece_captured)]`; for a quiet promotion the index is `NONE` = 6, past the six-entry row | the quiet promotion e7-e8=Q (`MakeMove(52, 60, Pawn, White, NoPiece, "", -1, Queen, …)`) | a quiet promotion subtracts no victim value and scores `500000 + value of the promotion piece` | high; not executed | `Search.QuietPromotionReadsPastRow` | `Search.QuietPromotionScore` |
