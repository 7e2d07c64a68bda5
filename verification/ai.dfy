/**
 The computer opponent of `ChessEngine`: it collects every check-safe move of
 Black and picks one according to the difficulty. `Math.random` is replaced by
 a caller-supplied number `roll`; scores are scaled by 20 to be integers.
 */
module Ai {
  import opened ChessTypes
  import opened Moves
  import opened Engine

  datatype Difficulty = Easy | Medium | Hard

  /** The `{ from, to }` pair handed back to the game screen. */
  datatype Move = Move(from: Pos, to: Pos)

  function ToMove(c: Candidate): Move {
    Move(c.from, c.to)
  }

  /** The colour the computer plays. */
  const AiColor: Color := Black

  /**
   The inner loop of `generateAIMove`'s collection: the moves of the piece on
   `from` after which `color` is not in check, by destination in row-major order.
   */
  method PieceMoves(b: Board, color: Color, from: Pos, piece: Piece) returns (ms: seq<Candidate>)
    requires InBounds(from) && At(b, from) == Some(piece) && piece.color == color
    ensures forall c {:trigger c in ms} :: c in ms <==> SafeCandidate(b, color, c) && c.from == from
    ensures forall k :: 0 <= k < |ms| ==> ms[k].from == from
    ensures forall k, l :: 0 <= k < l < |ms| ==> Index(ms[k].to) < Index(ms[l].to)
  {
    var validMoves := GetAllValidMoves(b, piece, from);
    ms := [];
    var j := 0;
    while j < |validMoves|
      invariant 0 <= j <= |validMoves|
      invariant forall c {:trigger c in ms} :: c in ms <==> SafeCandidate(b, color, c) && c.from == from && c.to in validMoves[..j]
      invariant forall k :: 0 <= k < |ms| ==> ms[k].from == from
      invariant forall k :: 0 <= k < |ms| && j < |validMoves| ==> Index(ms[k].to) < Index(validMoves[j])
      invariant forall k, l :: 0 <= k < l < |ms| ==> Index(ms[k].to) < Index(ms[l].to)
    {
      var to := validMoves[j];
      assert to in validMoves;
      var newBoard := Simulate(b, from, to, piece);
      var inCheck := IsInCheck(newBoard, color);
      var c := Candidate(from, to, piece);
      assert SafeCandidate(b, color, c) <==> !inCheck;
      if !inCheck {
        ms := ms + [c];
      }
      assert validMoves[..j + 1] == validMoves[..j] + [to];
      j := j + 1;
    }
    assert validMoves[..j] == validMoves;
  }

  /** Appending the moves from square `i` behind those of the earlier squares keeps the collection's description. */
  lemma AppendSquare(safe: Candidate -> bool, i: int, acc: seq<Candidate>, here: seq<Candidate>)
    requires 0 <= i < 64
    requires forall c :: safe(c) ==> InBounds(c.from)
    requires forall c :: c in acc <==> safe(c) && Index(c.from) < i
    requires forall k :: 0 <= k < |acc| ==> Index(acc[k].from) < i
    requires EnumerationOrder(acc)
    requires forall c :: c in here <==> safe(c) && c.from == Sq(i)
    requires forall k :: 0 <= k < |here| ==> here[k].from == Sq(i)
    requires forall k, l :: 0 <= k < l < |here| ==> Index(here[k].to) < Index(here[l].to)
    ensures forall c :: c in acc + here <==> safe(c) && Index(c.from) < i + 1
    ensures forall k :: 0 <= k < |acc + here| ==> Index((acc + here)[k].from) < i + 1
    ensures EnumerationOrder(acc + here)
  {
    forall c
      ensures c in acc + here <==> safe(c) && Index(c.from) < i + 1
    {
      if safe(c) && Index(c.from) == i {
        IndexRange(c.from);
      }
    }
    var ms := acc + here;
    forall k, l | 0 <= k < l < |ms|
      ensures Precedes(ms[k], ms[l])
    {
      if l < |acc| {
        assert ms[k] == acc[k] && ms[l] == acc[l];
      } else if k < |acc| {
        assert ms[k] == acc[k] && ms[l] == here[l - |acc|];
      } else {
        assert ms[k] == here[k - |acc|] && ms[l] == here[l - |acc|];
      }
    }
  }

  /**
   The collecting loop of `generateAIMove`: every check-safe move of `color`,
   listed in the order the nested row/column loops and `getAllValidMoves` find them.
   */
  method CollectMoves(b: Board, color: Color) returns (allMoves: seq<Candidate>)
    ensures forall c {:trigger c in allMoves} :: c in allMoves <==> SafeCandidate(b, color, c)
    ensures EnumerationOrder(allMoves)
  {
    allMoves := [];
    var i := 0;
    while i < 64
      invariant 0 <= i <= 64
      invariant forall c {:trigger c in allMoves} :: c in allMoves <==> SafeCandidate(b, color, c) && Index(c.from) < i
      invariant forall k :: 0 <= k < |allMoves| ==> Index(allMoves[k].from) < i
      invariant EnumerationOrder(allMoves)
    {
      var from := Sq(i);
      var here: seq<Candidate> := [];
      match At(b, from) {
        case Some(piece) =>
          if piece.color == color {
            here := PieceMoves(b, color, from, piece);
          }
        case None =>
      }
      AppendSquare(c => SafeCandidate(b, color, c), i, allMoves, here);
      allMoves := allMoves + here;
      i := i + 1;
    }
    forall c | SafeCandidate(b, color, c)
      ensures Index(c.from) < 64
    {
      IndexRange(c.from);
    }
  }

  /** `getPieceValue`: the conventional material values, with the king worth nothing. */
  function PieceValue(kind: PieceType): nat {
    match kind
    case Pawn => 1
    case Knight => 3
    case Bishop => 3
    case Rook => 5
    case Queen => 9
    case King => 0
  }

  /** The value of whatever stands on `to`; an empty square is worth nothing. */
  function CaptureValue(b: Board, to: Pos): nat {
    if Occupied(b, to) then PieceValue(At(b, to).value.kind) else 0
  }

  /**
   `evaluateMove`, multiplied by 20 so that every score is an integer: twenty
   points per unit of captured material, two points (a tenth of a unit) for
   every half-step the destination lies closer to the centre than a corner
   does, and four points (a fifth of a unit) for bringing a knight or bishop
   off row 0. With `2r - 7` the doubled distance of row `r` from the centre
   line 3.5, `(7 - centerDistance) * 0.1` becomes `14 - |2r - 7| - |2c - 7|`.
   */
  function EvaluateMove(b: Board, move: Candidate): (score: int)
    requires InBounds(move.to)
    ensures 20 * CaptureValue(b, move.to) <= score <= 20 * CaptureValue(b, move.to) + 16
  {
    var captured := if Occupied(b, move.to) then PieceValue(At(b, move.to).value.kind) else 0;
    var centerDistance := Abs(2 * move.to.row - 7) + Abs(2 * move.to.col - 7);
    var development :=
      if (move.piece.kind == Knight || move.piece.kind == Bishop) && move.from.row == 0 then 4 else 0;
    20 * captured + (14 - centerDistance) + development
  }

  /** `getRandomMove`: the move at position `roll` modulo the list length. */
  function GetRandomMove(moves: seq<Candidate>, roll: nat): (m: Move)
    requires |moves| > 0
    ensures exists k :: 0 <= k < |moves| && m == ToMove(moves[k])
  {
    ToMove(moves[roll % |moves|])
  }

  predicate IsCapture(b: Board, c: Candidate) {
    Occupied(b, c.to)
  }

  /**
   Entry `k` is the capture the medium tier picks: a capture of the highest
   value on offer, and the first such in the list.
   */
  predicate PicksBestCapture(b: Board, moves: seq<Candidate>, k: int) {
    && 0 <= k < |moves|
    && IsCapture(b, moves[k])
    && (forall l :: 0 <= l < |moves| && IsCapture(b, moves[l]) ==>
          CaptureValue(b, moves[l].to) <= CaptureValue(b, moves[k].to))
    && (forall l :: 0 <= l < k && IsCapture(b, moves[l]) ==>
          CaptureValue(b, moves[l].to) < CaptureValue(b, moves[k].to))
  }

  /** The ordering the medium tier relies on: king, pawn, minor pieces, rook, queen. */
  lemma PieceValueOrder()
    ensures PieceValue(King) < PieceValue(Pawn) < PieceValue(Knight)
    ensures PieceValue(Knight) == PieceValue(Bishop) < PieceValue(Rook) < PieceValue(Queen)
    ensures forall k :: PieceValue(k) <= PieceValue(Queen)
  {
  }

  /**
   The medium tier takes a queen whenever it can: the queen is the only piece
   of the highest value, so a best capture next to a safe queen capture is
   itself a queen capture.
   */
  lemma MediumTakesQueen(b: Board, color: Color, c: Candidate, q: Candidate)
    requires BestCapture(b, color, c)
    requires SafeCandidate(b, color, q) && IsCapture(b, q) && At(b, q.to).value.kind == Queen
    ensures At(b, c.to).value.kind == Queen
  {
    PieceValueOrder();
    assert CaptureValue(b, q.to) <= CaptureValue(b, c.to);
  }

  /** Material always outweighs position: a strictly more valuable capture scores strictly higher. */
  lemma MaterialDominates(b: Board, c: Candidate, d: Candidate)
    requires InBounds(c.to) && InBounds(d.to)
    requires CaptureValue(b, c.to) > CaptureValue(b, d.to)
    ensures EvaluateMove(b, c) > EvaluateMove(b, d)
  {
  }

  /** Every entry of the list is the random choice for some roll. */
  lemma RandomReachesEvery(moves: seq<Candidate>, k: int)
    requires 0 <= k < |moves|
    ensures exists roll: nat :: GetRandomMove(moves, roll) == ToMove(moves[k])
  {
    assert GetRandomMove(moves, k) == ToMove(moves[k]);
  }

  /**
   `getBestMoveSimple`: the most valuable capture, the earliest one on ties;
   without any capture, a random move.
   */
  method GetBestMoveSimple(b: Board, moves: seq<Candidate>, roll: nat) returns (m: Move)
    requires |moves| > 0
    ensures (exists k :: 0 <= k < |moves| && IsCapture(b, moves[k])) ==>
              exists k :: PicksBestCapture(b, moves, k) && m == ToMove(moves[k])
    ensures (forall k :: 0 <= k < |moves| ==> !IsCapture(b, moves[k])) ==> m == GetRandomMove(moves, roll)
  {
    var best: Option<nat> := None;
    var bestValue := 0;
    var j := 0;
    while j < |moves|
      invariant 0 <= j <= |moves|
      invariant best.None? ==> forall l :: 0 <= l < j ==> !IsCapture(b, moves[l])
      invariant best.Some? ==> PicksBestCapture(b, moves[..j], best.value)
      invariant best.Some? ==> best.value < j && bestValue == CaptureValue(b, moves[best.value].to)
    {
      var capture := moves[j];
      if IsCapture(b, capture) {
        var value := CaptureValue(b, capture.to);
        if best.None? || value > bestValue {
          best, bestValue := Some(j), value;
        }
      }
      assert forall l :: 0 <= l <= j ==> moves[..j + 1][l] == moves[l];
      j := j + 1;
    }
    assert moves[..j] == moves;
    if best.Some? {
      return ToMove(moves[best.value]);
    }
    return GetRandomMove(moves, roll);
  }

  predicate OnBoard(moves: seq<Candidate>) {
    forall k :: 0 <= k < |moves| ==> InBounds(moves[k].to)
  }

  /** Entry `k` has the highest score in the list, and no earlier entry has that score. */
  predicate PicksBestScore(b: Board, moves: seq<Candidate>, k: int)
    requires OnBoard(moves)
  {
    && 0 <= k < |moves|
    && (forall l :: 0 <= l < |moves| ==> EvaluateMove(b, moves[l]) <= EvaluateMove(b, moves[k]))
    && (forall l :: 0 <= l < k ==> EvaluateMove(b, moves[l]) < EvaluateMove(b, moves[k]))
  }

  /** The hard tier never passes up material: its choice captures at least as much as any other move. */
  lemma HardTierMaximisesMaterial(b: Board, moves: seq<Candidate>, k: int)
    requires OnBoard(moves) && PicksBestScore(b, moves, k)
    ensures forall l :: 0 <= l < |moves| ==> CaptureValue(b, moves[l].to) <= CaptureValue(b, moves[k].to)
  {
    forall l | 0 <= l < |moves|
      ensures CaptureValue(b, moves[l].to) <= CaptureValue(b, moves[k].to)
    {
      assert EvaluateMove(b, moves[l]) <= EvaluateMove(b, moves[k]);
    }
  }

  /** No entry after the chosen one is passed over unless it scores less. */
  lemma BestScoreIsFirst(b: Board, moves: seq<Candidate>, k: int, l: int)
    requires OnBoard(moves) && PicksBestScore(b, moves, k)
    requires 0 <= l < |moves| && EvaluateMove(b, moves[l]) == EvaluateMove(b, moves[k])
    ensures k <= l
  {
  }

  /** At most one entry is the first best-scoring one. */
  lemma PicksBestScoreUnique(b: Board, moves: seq<Candidate>, k: int, k': int)
    requires OnBoard(moves) && PicksBestScore(b, moves, k) && PicksBestScore(b, moves, k')
    ensures k == k'
  {
    BestScoreIsFirst(b, moves, k, k');
    BestScoreIsFirst(b, moves, k', k);
  }

  /** `getBestMoveAdvanced`: the first move of the highest score; `-Infinity` is "no score yet". */
  method GetBestMoveAdvanced(b: Board, moves: seq<Candidate>) returns (m: Move)
    requires |moves| > 0 && OnBoard(moves)
    ensures exists k :: PicksBestScore(b, moves, k) && m == ToMove(moves[k])
  {
    var bestIndex := 0;
    var bestScore: Option<int> := None;
    var j := 0;
    while j < |moves|
      invariant 0 <= j <= |moves|
      invariant bestScore.None? <==> j == 0
      invariant j > 0 ==> PicksBestScore(b, moves[..j], bestIndex)
      invariant j > 0 ==> bestScore == Some(EvaluateMove(b, moves[bestIndex]))
    {
      var score := EvaluateMove(b, moves[j]);
      if bestScore.None? || score > bestScore.value {
        bestScore := Some(score);
        bestIndex := j;
      }
      assert forall l :: 0 <= l <= j ==> moves[..j + 1][l] == moves[l];
      j := j + 1;
    }
    assert moves[..j] == moves;
    return ToMove(moves[bestIndex]);
  }

  /** A list holding exactly the candidates that satisfy `safe` is empty exactly when there are none. */
  lemma ListedIffAny(safe: Candidate -> bool, moves: seq<Candidate>)
    requires forall c :: c in moves <==> safe(c)
    ensures |moves| == 0 <==> forall c :: !safe(c)
  {
    if |moves| > 0 {
      assert moves[0] in moves;
    }
  }

  /** Whatever entry of such a list is chosen, it satisfies `safe`. */
  lemma ChoiceIsListed(safe: Candidate -> bool, moves: seq<Candidate>, move: Move)
    requires forall c :: c in moves <==> safe(c)
    requires exists k :: 0 <= k < |moves| && move == ToMove(moves[k])
    ensures exists c :: safe(c) && move == ToMove(c)
  {
    var k :| 0 <= k < |moves| && move == ToMove(moves[k]);
    assert moves[k] in moves;
  }

  /** In a list in enumeration order, a candidate that precedes another stands before it. */
  lemma PrecedesIndex(moves: seq<Candidate>, k: int, l: int)
    requires EnumerationOrder(moves) && 0 <= k < |moves| && 0 <= l < |moves|
    requires Precedes(moves[l], moves[k])
    ensures l < k
  {
  }

  /**
   `c` is a check-safe capture of `color` worth at least as much as any other,
   and every check-safe capture enumerated before it is worth strictly less.
   */
  ghost predicate BestCapture(b: Board, color: Color, c: Candidate) {
    && SafeCandidate(b, color, c) && IsCapture(b, c)
    && (forall d :: SafeCandidate(b, color, d) && IsCapture(b, d) ==> CaptureValue(b, d.to) <= CaptureValue(b, c.to))
    && (forall d :: SafeCandidate(b, color, d) && IsCapture(b, d) && Precedes(d, c) ==> CaptureValue(b, d.to) < CaptureValue(b, c.to))
  }

  /**
   `c` is a check-safe move of `color` scoring at least as well as any other,
   and every check-safe move enumerated before it scores strictly less.
   */
  ghost predicate BestScoring(b: Board, color: Color, c: Candidate) {
    && SafeCandidate(b, color, c)
    && (forall d :: SafeCandidate(b, color, d) ==> EvaluateMove(b, d) <= EvaluateMove(b, c))
    && (forall d :: SafeCandidate(b, color, d) && Precedes(d, c) ==> EvaluateMove(b, d) < EvaluateMove(b, c))
  }

  /**
   The medium tier's choice captures at least as much as any capture the list
   was built from, and every capture enumerated before it is worth strictly less.
   */
  lemma MediumChoice(b: Board, color: Color, moves: seq<Candidate>, move: Move)
    requires forall c :: c in moves <==> SafeCandidate(b, color, c)
    requires EnumerationOrder(moves)
    requires (exists k :: 0 <= k < |moves| && IsCapture(b, moves[k])) ==>
               exists k :: PicksBestCapture(b, moves, k) && move == ToMove(moves[k])
    ensures (exists d :: SafeCandidate(b, color, d) && IsCapture(b, d)) ==>
              exists c :: BestCapture(b, color, c) && move == ToMove(c)
  {
    if d :| SafeCandidate(b, color, d) && IsCapture(b, d) {
      var l :| 0 <= l < |moves| && moves[l] == d;
      var k :| PicksBestCapture(b, moves, k) && move == ToMove(moves[k]);
      assert moves[k] in moves;
      forall d' | SafeCandidate(b, color, d') && IsCapture(b, d')
        ensures CaptureValue(b, d'.to) <= CaptureValue(b, moves[k].to)
        ensures Precedes(d', moves[k]) ==> CaptureValue(b, d'.to) < CaptureValue(b, moves[k].to)
      {
        var l' :| 0 <= l' < |moves| && moves[l'] == d';
        if Precedes(d', moves[k]) {
          PrecedesIndex(moves, k, l');
        }
      }
    }
  }

  /**
   The hard tier's choice scores at least as well as anything the list was
   built from, and every move enumerated before it scores strictly less.
   */
  lemma HardChoice(b: Board, color: Color, moves: seq<Candidate>, move: Move)
    requires forall c :: c in moves <==> SafeCandidate(b, color, c)
    requires forall c :: SafeCandidate(b, color, c) ==> InBounds(c.to)
    requires OnBoard(moves) && EnumerationOrder(moves)
    requires exists k :: PicksBestScore(b, moves, k) && move == ToMove(moves[k])
    ensures exists c :: BestScoring(b, color, c) && move == ToMove(c)
  {
    var k :| PicksBestScore(b, moves, k) && move == ToMove(moves[k]);
    assert moves[k] in moves;
    forall d | SafeCandidate(b, color, d)
      ensures EvaluateMove(b, d) <= EvaluateMove(b, moves[k])
      ensures Precedes(d, moves[k]) ==> EvaluateMove(b, d) < EvaluateMove(b, moves[k])
    {
      var l :| 0 <= l < |moves| && moves[l] == d;
      if Precedes(d, moves[k]) {
        PrecedesIndex(moves, k, l);
      }
    }
  }

  /** The `switch` of `generateAIMove`: pick from a non-empty list of moves by difficulty. */
  method ChooseMove(b: Board, moves: seq<Candidate>, difficulty: Difficulty, roll: nat) returns (move: Move)
    requires |moves| > 0 && OnBoard(moves)
    ensures exists k :: 0 <= k < |moves| && move == ToMove(moves[k])
    ensures difficulty == Easy ==> move == GetRandomMove(moves, roll)
    ensures difficulty == Medium && (exists k :: 0 <= k < |moves| && IsCapture(b, moves[k])) ==>
              exists k :: PicksBestCapture(b, moves, k) && move == ToMove(moves[k])
    ensures difficulty == Hard ==> exists k :: PicksBestScore(b, moves, k) && move == ToMove(moves[k])
  {
    match difficulty {
      case Easy =>
        move := GetRandomMove(moves, roll);
      case Medium =>
        move := GetBestMoveSimple(b, moves, roll);
        if !exists k :: 0 <= k < |moves| && IsCapture(b, moves[k]) {
          assert move == GetRandomMove(moves, roll);
        }
      case Hard =>
        move := GetBestMoveAdvanced(b, moves);
    }
  }

  /**
   `generateAIMove`: no move at all when Black has no check-safe move;
   otherwise a check-safe move chosen by the difficulty's rule. Ties go to the
   move found first, since the tiers only replace their choice on a strictly
   better one.
   */
  method GenerateAIMove(b: Board, difficulty: Difficulty, roll: nat) returns (m: Option<Move>)
    ensures m.None? <==> !HasSafeMove(b, AiColor)
    ensures m.Some? ==> exists c :: SafeCandidate(b, AiColor, c) && m.value == ToMove(c)
    ensures difficulty == Hard && m.Some? ==> exists c :: BestScoring(b, AiColor, c) && m.value == ToMove(c)
    ensures difficulty == Medium && (exists d :: SafeCandidate(b, AiColor, d) && IsCapture(b, d)) ==>
              exists c :: BestCapture(b, AiColor, c) && m == Some(ToMove(c))
  {
    var allMoves := CollectMoves(b, AiColor);
    ghost var safe := c => SafeCandidate(b, AiColor, c);
    ListedIffAny(safe, allMoves);
    if |allMoves| == 0 {
      forall c
        ensures !SafeCandidate(b, AiColor, c)
      {
        assert !safe(c);
      }
      return None;
    }
    assert OnBoard(allMoves) by {
      forall k | 0 <= k < |allMoves|
        ensures InBounds(allMoves[k].to)
      {
        assert allMoves[k] in allMoves;
      }
    }
    var move := ChooseMove(b, allMoves, difficulty, roll);
    ChoiceIsListed(safe, allMoves, move);
    if difficulty == Medium {
      MediumChoice(b, AiColor, allMoves, move);
    } else if difficulty == Hard {
      HardChoice(b, AiColor, allMoves, move);
    }
    m := Some(move);
  }
}
