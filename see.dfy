// Static exchange evaluation (include/see.h): the captures on one square,
// least valuable attacker first, played out on copies of the bitboards, and
// the minimax fold of the gains.
module See {
  import opened Bits
  import opened Pieces
  import opened Moves
  import opened Position

  /**
   * `pick_least_attacker(to, side, attFrom, attPT, occ, piecesLocal)`: the
   * square and type of the cheapest piece of `side` attacking `to` through
   * `occ`, read from the local boards. Its body is not part of this model;
   * it is a parameter.
   */
  type Picker = (Square, Color, Bitboard, seq<Bitboard>) -> Option<(Square, PieceType)>

  /** What the exchange needs of the picker: a real piece, found on an occupied square. */
  ghost predicate PicksOccupied(pick: Picker)
  {
    forall to, side, occ, locals ::
      pick(to, side, occ, locals).Some? ==>
        pick(to, side, occ, locals).value.1 != NoPiece && pick(to, side, occ, locals).value.0 in occ
  }

  /**
   * The gains after the first capture: each recapture by `side` is worth the
   * piece last placed on the square (`victim`) minus the gain before it; the
   * recapturing piece leaves the occupancy and its board, and the other side
   * answers.
   */
  function Exchange(pick: Picker, to: Square, side: Color, occ: Bitboard, locals: seq<Bitboard>, victim: int,
                    prev: int): (gs: seq<int>)
    requires PicksOccupied(pick) && |locals| == 12
    ensures |gs| <= |occ|
    decreases |occ|
  {
    match pick(to, side, occ, locals)
    case None => []
    case Some((from, p)) =>
      var i := BoardIndex(side, p);
      [victim - prev]
      + Exchange(pick, to, Opponent(side), occ - {from}, locals[i := locals[i] - {from}], WhiteValue(p), victim - prev)
  }

  /** The local copies `see_capture` starts from: the captured piece and the moving piece taken off. */
  function StartBoards(st: State, from: Square, to: Square, stm: Color, moving: PieceType, captured: PieceType)
    : (locals: seq<Bitboard>)
    requires Shaped(st) && moving != NoPiece
    ensures |locals| == 12
  {
    var afterCapture := if captured == NoPiece then st.pieces
                        else st.pieces[BoardIndex(Opponent(stm), captured) :=
                                       st.pieces[BoardIndex(Opponent(stm), captured)] - {to}];
    var us := BoardIndex(stm, moving);
    afterCapture[us := afterCapture[us] - {from}]
  }

  /** The gain array `see_capture` fills: the captured value, then one entry per recapture. */
  function Gains(pick: Picker, st: State, from: Square, to: Square, stm: Color, moving: PieceType,
                 captured: PieceType): (gs: seq<int>)
    requires PicksOccupied(pick) && Shaped(st) && moving != NoPiece && captured != NoPiece
    ensures 1 <= |gs| <= |st.all - {from}| + 1 && gs[0] == WhiteValue(captured)
  {
    [WhiteValue(captured)]
    + Exchange(pick, to, Opponent(stm), st.all - {from}, StartBoards(st, from, to, stm, moving, captured),
               WhiteValue(moving), WhiteValue(captured))
  }

  /**
   * The backward fold `gain[i] = -max(-gain[i], gain[i+1])`: each side may
   * stop capturing, so a gain never exceeds the plain capture and never
   * falls below the capture minus what the opponent wins back.
   */
  function Resolve(gs: seq<int>): (r: int)
    requires |gs| >= 1
    ensures r <= gs[0]
    ensures |gs| >= 2 ==> r >= gs[0] || r >= -gs[1]
  {
    if |gs| == 1 then gs[0]
    else
      var rest := Resolve(gs[1..]);
      if -gs[0] >= rest then gs[0] else -rest
  }

  /** The value `see_capture` returns. */
  function SeeValue(pick: Picker, st: State, from: Square, to: Square, stm: Color, moving: PieceType,
                    captured: PieceType): int
    requires PicksOccupied(pick) && Shaped(st) && moving != NoPiece && captured != NoPiece
  {
    Resolve(Gains(pick, st, from, to, stm, moving, captured))
  }

  /**
   * `see_capture`. The 32-entry gain array holds every entry because at most
   * 31 other pieces stand on the board once the moving piece has left it.
   */
  method SeeCapture(pick: Picker, st: State, from: Square, to: Square, stm: Color, moving: PieceType,
                    captured: PieceType) returns (r: int)
    requires PicksOccupied(pick) && Shaped(st) && moving != NoPiece && captured != NoPiece
    requires |st.all - {from}| <= 31
    ensures r == SeeValue(pick, st, from, to, stm, moving, captured)
  {
    ghost var gs := Gains(pick, st, from, to, stm, moving, captured);
    var locals := StartBoards(st, from, to, stm, moving, captured);
    var gain := new int[32];
    gain[0] := WhiteValue(captured);
    var d := PlayOut(pick, to, Opponent(stm), st.all - {from}, locals, WhiteValue(moving), gain);
    r := FoldGains(gain, d, gs);
  }

  /**
   * The `while (true)` loop of `see_capture`: each attacker found is taken
   * off the local boards and the occupancy, and its gain is written to the
   * next entry of the array.
   */
  method PlayOut(pick: Picker, to: Square, side0: Color, occ0: Bitboard, locals0: seq<Bitboard>, victim0: int,
                 gain: array<int>) returns (d: int)
    requires PicksOccupied(pick) && |locals0| == 12 && gain.Length == 32 && |occ0| <= 31
    modifies gain
    ensures 0 <= d < 32
    ensures gain[..d + 1] == [old(gain[0])] + Exchange(pick, to, side0, occ0, locals0, victim0, old(gain[0]))
  {
    ghost var gs := [gain[0]] + Exchange(pick, to, side0, occ0, locals0, victim0, gain[0]);
    var side, occ, locals, victim := side0, occ0, locals0, victim0;
    d := 0;
    ghost var done := [gain[0]];
    var last := gain[0];
    while true
      invariant 0 <= d < 32 && |locals| == 12 && |done| == d + 1
      invariant d + |occ| <= |occ0|
      invariant gain[..d + 1] == done && gain[d] == last
      invariant Continues(pick, to, side, occ, locals, victim, last, done, gs)
      decreases |occ|
    {
      var found := pick(to, side, occ, locals);
      if found.None? {
        break;
      }
      var (attFrom, attPT) := found.value;
      var g := victim - last;
      var nextLocals := locals[BoardIndex(side, attPT) := locals[BoardIndex(side, attPT)] - {attFrom}];
      var nextOcc := occ - {attFrom};
      var nextSide := Opponent(side);
      var nextVictim := WhiteValue(attPT);
      ExchangeStep(pick, to, side, occ, locals, victim, last, done, gs, attFrom, attPT,
                   nextSide, nextOcc, nextLocals, nextVictim, g);
      d := d + 1;
      gain[d] := g;
      assert gain[..d + 1] == gain[..d] + [g];
      done := done + [g];
      last := g;
      side, occ, locals, victim := nextSide, nextOcc, nextLocals, nextVictim;
    }
    assert done == gs;
  }

  /** The entries written so far, followed by the rest of the exchange, make up the whole exchange. */
  ghost predicate Continues(pick: Picker, to: Square, side: Color, occ: Bitboard, locals: seq<Bitboard>, victim: int,
                            prev: int, done: seq<int>, gs: seq<int>)
    requires PicksOccupied(pick) && |locals| == 12
  {
    done + Exchange(pick, to, side, occ, locals, victim, prev) == gs
  }

  /**
   * One recapture: the attacker found stands on the occupancy, and its gain
   * extends the entries written so far towards the whole exchange.
   */
  lemma ExchangeStep(pick: Picker, to: Square, side: Color, occ: Bitboard, locals: seq<Bitboard>, victim: int,
                     prev: int, done: seq<int>, gs: seq<int>, from: Square, p: PieceType,
                     nextSide: Color, nextOcc: Bitboard, nextLocals: seq<Bitboard>, nextVictim: int, g: int)
    requires PicksOccupied(pick) && |locals| == 12
    requires pick(to, side, occ, locals) == Some((from, p))
    requires Continues(pick, to, side, occ, locals, victim, prev, done, gs)
    requires nextSide == Opponent(side) && nextOcc == occ - {from} && g == victim - prev
    requires nextLocals == locals[BoardIndex(side, p) := locals[BoardIndex(side, p)] - {from}]
    requires p != NoPiece ==> nextVictim == WhiteValue(p)
    ensures p != NoPiece && from in occ && |nextLocals| == 12
    ensures Continues(pick, to, nextSide, nextOcc, nextLocals, nextVictim, g, done + [g], gs)
  {
    var rest := Exchange(pick, to, nextSide, nextOcc, nextLocals, nextVictim, g);
    assert done + ([g] + rest) == gs;
    assert (done + [g]) + rest == done + ([g] + rest);
  }

  /** The backward `for` loop over the filled part of the gain array. */
  method FoldGains(gain: array<int>, d: int, ghost gs: seq<int>) returns (r: int)
    requires 0 <= d < gain.Length && gain[..d + 1] == gs
    modifies gain
    ensures r == Resolve(gs)
  {
    var i := d - 1;
    while i >= 0
      invariant -1 <= i < d
      invariant gain[..i + 1] == gs[..i + 1]
      invariant gain[i + 1] == Resolve(gs[i + 1..])
    {
      assert gs[i..][1..] == gs[i + 1..];
      gain[i] := -Max(-gain[i], gain[i + 1]);
      i := i - 1;
    }
    r := gain[0];
  }

  /** `see_move`: zero for a king move, the exchange of the move's capture otherwise. */
  method SeeMove(pick: Picker, st: State, m: Move) returns (r: int)
    requires PicksOccupied(pick) && Shaped(st)
    requires m.moved != King ==> && 0 <= m.from < 64 && 0 <= m.to < 64
                                 && m.moved != NoPiece && m.captured != NoPiece
                                 && |st.all - {m.from as Square}| <= 31
    ensures m.moved == King ==> r == 0
    ensures m.moved != King ==> r == SeeValue(pick, st, m.from as Square, m.to as Square, m.color, m.moved, m.captured)
  {
    if m.moved == King {
      return 0;
    }
    r := SeeCapture(pick, st, m.from as Square, m.to as Square, m.color, m.moved, m.captured);
  }

  // ---------------------------------------------------------------
  // Properties
  // ---------------------------------------------------------------

  /** With no recapturer the exchange is worth the captured piece. */
  lemma NoRecaptureWinsCaptured(pick: Picker, st: State, from: Square, to: Square, stm: Color, moving: PieceType,
                                captured: PieceType)
    requires PicksOccupied(pick) && Shaped(st) && moving != NoPiece && captured != NoPiece
    requires pick(to, Opponent(stm), st.all - {from}, StartBoards(st, from, to, stm, moving, captured)).None?
    ensures SeeValue(pick, st, from, to, stm, moving, captured) == WhiteValue(captured)
  {
  }

  /**
   * The exchange is worth at most the captured piece, and at least the
   * captured piece minus the moving one: the opponent may stop recapturing,
   * and the mover may stop after losing the moving piece.
   */
  lemma SeeBounds(pick: Picker, st: State, from: Square, to: Square, stm: Color, moving: PieceType,
                  captured: PieceType)
    requires PicksOccupied(pick) && Shaped(st) && moving != NoPiece && captured != NoPiece
    ensures WhiteValue(captured) - WhiteValue(moving) <= SeeValue(pick, st, from, to, stm, moving, captured) <= WhiteValue(captured)
  {
    var gs := Gains(pick, st, from, to, stm, moving, captured);
    if |gs| >= 2 {
      assert gs[1] == WhiteValue(moving) - WhiteValue(captured);
    }
  }

  /** The exchange takes at most one recapture per piece left on the board. */
  lemma ExchangeLength(pick: Picker, st: State, from: Square, to: Square, stm: Color, moving: PieceType,
                       captured: PieceType)
    requires PicksOccupied(pick) && Shaped(st) && moving != NoPiece && captured != NoPiece
    ensures |Gains(pick, st, from, to, stm, moving, captured)| - 1 <= |st.all - {from}|
  {
  }
}
