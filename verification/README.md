# Royal Grandmaster Chess — rules engine and game session in Dafny

This project models the core of a browser chess game written in TypeScript:

- **`ChessEngine`** (`src/utils/chessEngine.ts`). It covers:
  - the movement rules (`isValidMove` and its pawn, rook, bishop and queen helpers, and `isPathClear`);
  - move enumeration (`getAllValidMoves`);
  - the check, checkmate and stalemate tests;
  - the three-tier AI that plays Black (`generateAIMove`, `getRandomMove`, `getBestMoveSimple`, `getBestMoveAdvanced`, `evaluateMove` and `getPieceValue`).
- **The game session** (`src/contexts/GameContext.tsx`). It covers the starting board, the initial state and every branch of `gameReducer`.

The board is an 8×8 `seq<seq<Option<Piece>>>`. Row 0 is Black's back rank. Pieces, states and actions are immutable datatypes. The engine's nested row/column loops become one loop over the row-major square index, which visits the squares in the same order. Each engine method is proved against a declarative ghost description:

- `InCheck`: the first king of the colour in row-major order is attacked.
- `SafeCandidate`: a candidate move after which the mover is not in check.
- `HasSafeMove`: some safe candidate exists.

Modules, one per file:

| file | module | contents |
|---|---|---|
| `types.dfy` | `ChessTypes` | colours, piece kinds, positions, pieces, the board, square update, row-major index |
| `moves.dfy` | `Moves` | `isValidMove` and its helpers, `isPathClear` as a walk with a decreasing king-step distance |
| `move_properties.dfy` | `MoveProperties` | each piece's rule against an independent geometric description; colour symmetry |
| `engine.dfy` | `Engine` | `getAllValidMoves`, `isInCheck`, the safe-move search, `isCheckmate`, `isStalemate` |
| `ai.dfy` | `Ai` | move collection, the three difficulty tiers, the move score |
| `game.dfy` | `Game` | the session state, the actions, `createInitialBoard`, `initialState`, `gameReducer` |
| `game_properties.dfy` | `GameProperties` | invariants of reachable states, turn alternation, restarts, the settings merge |
| `opening.dfy` | `Opening` | the engine's verdicts on the starting position |
| `check_properties.dfy` | `CheckProperties` | colour symmetry of check, the two-king case that breaks it, the king's distance from the enemy king |

The model follows the code where the code departs from the rules of chess:

- The pawn's double step only looks at its destination, so a pawn can jump over a piece (`PawnDoubleStepSkipsMiddle`).
- `isValidMove` ignores check, so it accepts a king step next to the enemy king. Every caller that plays or tests moves (`isCheckmate`, `isStalemate`, `generateAIMove`) filters candidates through `isInCheck`, and the enemy king's own rule attacks the squares next to it. With a single king, no move that passes the filter ends next to the enemy king (`SafeKingKeepsDistance`).
- Only the first king found is examined for check. With one king per colour, check is colour-symmetric (`MirrorCheck`). With two kings of one colour it is not (`FirstKingBreaksSymmetry`). Such positions cannot arise from the starting position without promotion, which the source does not implement.

## Model

| member | source | states |
|---|---|---|
| `Moves.IsValidMove` | src/utils/chessEngine.ts:4-38 | an accepted destination is on the board and never holds a piece of the mover's own colour |
| `Moves.IsValidPawnMove` | src/utils/chessEngine.ts:40-69 | a straight pawn move lands only on an empty square; a sideways one lands only on an occupied square one file away; every accepted move advances one rank in the colour's direction, or two from the starting rank |
| `Moves.IsValidRookMove` | src/utils/chessEngine.ts:71-82 | accepted exactly when the squares share a rank or a file and every square stepped over is empty |
| `Moves.IsValidBishopMove` | src/utils/chessEngine.ts:84-97 | accepted exactly when the squares share a diagonal and every square stepped over is empty |
| `Moves.IsValidQueenMove` | src/utils/chessEngine.ts:99-115 | accepted exactly when the squares share a rank, file or diagonal and every square stepped over is empty |
| `Moves.Walk` | src/utils/chessEngine.ts:121-130 | the stepping loop succeeds exactly when no square from the current one up to, but excluding, the target is occupied; it terminates because the king-step distance to the target shrinks |
| `Moves.IsPathClear` | src/utils/chessEngine.ts:117-131 | true exactly when every square strictly between two aligned squares, one king step at a time, is empty |
| `MoveProperties.PathClearIffBetweenEmpty` | src/utils/chessEngine.ts:117-131 | the path test holds exactly when no square lying geometrically between the endpoints is occupied (no stepping involved) |
| `MoveProperties.PathIgnoresEndpoints` | src/utils/chessEngine.ts:117-131 | overwriting either endpoint never changes the path verdict |
| `MoveProperties.NullMoveIllegal` | src/utils/chessEngine.ts:13-15 | a piece standing on its square can never move onto that same square |
| `MoveProperties.PawnRule` | src/utils/chessEngine.ts:40-69 | the complete pawn rule as an if-and-only-if: one step ahead, or two from the starting rank, onto an empty square; or one step diagonally forward onto an enemy piece |
| `MoveProperties.PawnMovesForward` | src/utils/chessEngine.ts:48-66 | a white pawn only ever decreases its row and a black pawn only ever increases it |
| `MoveProperties.PawnDoubleStepSkipsMiddle` | src/utils/chessEngine.ts:59-60 | the double step is accepted whatever stands on the square it passes over |
| `MoveProperties.KnightSquares` | src/utils/chessEngine.ts:27-28 | the knight's two displacement shapes are exactly the displacements of squared length 5 |
| `MoveProperties.KnightRule` | src/utils/chessEngine.ts:27-28 | a knight reaches exactly the on-board squares at squared distance 5 not held by its own side, whatever stands in between |
| `MoveProperties.KingRule` | src/utils/chessEngine.ts:33-34 | a king reaches exactly the squares within one king step not held by its own side; check is not consulted |
| `MoveProperties.SlidingRule` | src/utils/chessEngine.ts:25-32 | rooks, bishops and queens reach exactly the squares on their lines with nothing strictly in between |
| `MoveProperties.QueenIsRookOrBishop` | src/utils/chessEngine.ts:99-115 | a queen move is legal exactly when the same move is legal for a rook or for a bishop of that colour |
| `MoveProperties.MirrorPath` | src/utils/chessEngine.ts:117-131 | reflecting the board top to bottom preserves whether a path is empty |
| `MoveProperties.MirrorMove` | src/utils/chessEngine.ts:4-69 | the rules are colour-symmetric: reflect the board, the move and the piece and swap colours, and legality is unchanged |
| `CheckProperties.MirrorFirstKing` | src/utils/chessEngine.ts:149-162 | with at most one king of a colour, its first king reflects to the first king of the other colour on the reflected board |
| `CheckProperties.MirrorCheck` | src/utils/chessEngine.ts:148-178 | with at most one king of the colour, reflecting the board and swapping colours puts the other colour in check exactly when the first was |
| `CheckProperties.FirstKingBreaksSymmetry` | src/utils/chessEngine.ts:149-162 | with white kings on (6, 0) and (7, 0) and a black rook on (6, 7), White is in check but Black is not on the reflected board, because only the first king is examined |
| `CheckProperties.SafeKingKeepsDistance` | src/utils/chessEngine.ts:33-34 | with a single king, a king move that passes the check filter never ends within one king step of an enemy king, unless it takes that king |
| `Engine.GetAllValidMoves` | src/utils/chessEngine.ts:133-146 | lists exactly the on-board squares the rules accept for the piece, in strictly increasing row-major order, so without repeats |
| `Engine.FindKing` | src/utils/chessEngine.ts:149-162 | the first king of the colour in row-major order, or none when the colour has no king at all |
| `Engine.FirstKingUnique` | src/utils/chessEngine.ts:149-162 | the king the search settles on is unique |
| `Engine.FindAttacker` | src/utils/chessEngine.ts:164-175 | true exactly when some enemy piece may move onto the king's square |
| `Engine.IsInCheck` | src/utils/chessEngine.ts:148-178 | agrees with `InCheck` on every board; a colour without a king is never in check |
| `Engine.Simulate` | src/utils/chessEngine.ts:192-195 | on the trial board the source square is empty, the destination holds the moving piece, and every other square is unchanged |
| `Engine.HasLegalMove` | src/utils/chessEngine.ts:184-204 | true exactly when the colour has a candidate move after which it is not in check |
| `Engine.IsCheckmate` | src/utils/chessEngine.ts:180-207 | true exactly when the colour is in check and no candidate move gets it out of check |
| `Engine.IsStalemate` | src/utils/chessEngine.ts:209-235 | true exactly when the colour is not in check and every candidate move leaves it in check |
| `Ai.PieceMoves` | src/utils/chessEngine.ts:246-258 | exactly the safe candidates of the piece on that square, destinations in row-major order |
| `Ai.CollectMoves` | src/utils/chessEngine.ts:238-261 | exactly the safe candidates of the colour, ordered by source square and then by destination |
| `Ai.PieceValueOrder` | src/utils/chessEngine.ts:351-361 | `getPieceValue` (`Ai.PieceValue`) orders the kinds king < pawn < knight = bishop < rook < queen, and no piece is worth more than a queen |
| `Ai.EvaluateMove` | src/utils/chessEngine.ts:327-349 | the captured material dominates the score: 20·value ≤ score ≤ 20·value + 16 |
| `Ai.MaterialDominates` | src/utils/chessEngine.ts:327-349 | a more valuable capture always scores strictly higher, whatever the centre and development terms |
| `Ai.GetRandomMove` | src/utils/chessEngine.ts:277-280 | the chosen move is one of the listed moves |
| `Ai.RandomReachesEvery` | src/utils/chessEngine.ts:277-280 | every listed move is chosen for some roll |
| `Ai.GetBestMoveSimple` | src/utils/chessEngine.ts:282-306 | when a capture is listed, the earliest capture of greatest value; otherwise the random choice |
| `Ai.GetBestMoveAdvanced` | src/utils/chessEngine.ts:308-325 | the earliest listed move of greatest score |
| `Ai.PicksBestScoreUnique` | src/utils/chessEngine.ts:316-322 | the hard tier's choice is determined by the list: only one position satisfies it |
| `Ai.HardTierMaximisesMaterial` | src/utils/chessEngine.ts:308-349 | the hard tier's choice captures at least as much material as any listed move |
| `Ai.ChooseMove` | src/utils/chessEngine.ts:263-274 | easy gives the random choice, medium the best capture when there is one, hard the best score; the result is always a listed move |
| `Ai.MediumChoice` | src/utils/chessEngine.ts:282-306 | the medium tier's choice is a safe capture of the highest value, and every safe capture enumerated before it is worth strictly less |
| `Ai.HardChoice` | src/utils/chessEngine.ts:308-325 | the hard tier's choice is a safe move of the highest score, and every safe move enumerated before it scores strictly less |
| `Ai.MediumTakesQueen` | src/utils/chessEngine.ts:351-361 | when a safe queen capture exists, the medium tier's choice captures a queen |
| `Ai.GenerateAIMove` | src/utils/chessEngine.ts:237-275 | no move exactly when Black has no safe move; otherwise a safe move of Black; on hard, a move of the highest score of all safe moves, and the first such in enumeration order; on medium, when a safe capture exists, a safe capture of the highest value, and the first such in enumeration order |
| `Game.InitialBoard` | src/contexts/GameContext.tsx:57-81 | the starting arrangement: back ranks in rook, knight, bishop, queen, king, bishop, knight, rook order, pawns in front of them, four empty ranks, every piece unmoved and recording its own square |
| `Game.SelectSquareState` | src/contexts/GameContext.tsx:107-139 | an off-board click deselects; a click on one of the mover's pieces selects it; any other on-board click leaves the state unchanged exactly when a selection exists and the square is a listed target, and otherwise clears both the selection and the target list; nothing but the selection and the target list ever changes |
| `Game.AddCaptured` | src/contexts/GameContext.tsx:156-160 | a taken piece is appended to its own colour's list and the other list is untouched |
| `Game.MovePieceState` | src/contexts/GameContext.tsx:141-170 | an empty source square changes nothing; otherwise the piece moves, the source empties, all other squares stay, the turn passes, the selection clears, the move is recorded, a displaced piece is filed as captured, and mode, status, settings, history and started flag are kept |
| `Game.Reduce` | src/contexts/GameContext.tsx:97-199 | the reducer with fresh capture lists on a start or reset (the corrected behaviour of the finding below): an unknown action changes nothing, and only a start, a move or a reset touches the position, the player to move or the capture lists |
| `Game.ReduceAsWritten` | src/contexts/GameContext.tsx:157-159 | as written, a restart keeps the capture lists it finds, while a move updates them as the reducer does |
| `GameProperties.LayoutCounts` | src/contexts/GameContext.tsx:57-81 | the starting arrangement holds sixteen pieces of each colour |
| `GameProperties.InitialWellFormed` | src/contexts/GameContext.tsx:83-95 | `initialState` (`Game.InitialState`) is well formed: positions recorded correctly, capture lists hold their own colour, sixteen pieces per colour on the board or captured, any selection is the mover's piece |
| `GameProperties.MovePreservesWellFormed` | src/contexts/GameContext.tsx:141-170 | a move keeps the state well formed; in particular a piece leaves the board exactly when it enters a capture list |
| `GameProperties.ReducePreservesWellFormed` | src/contexts/GameContext.tsx:97-199 | every action keeps the state well formed |
| `GameProperties.RunPreservesWellFormed` | src/contexts/GameContext.tsx:97-199 | any sequence of actions keeps a well-formed state well formed |
| `GameProperties.ReachableWellFormed` | src/contexts/GameContext.tsx:207 | every state the corrected reducer reaches from the initial state is well formed |
| `GameProperties.ReduceAsWrittenKeepsSound` | src/contexts/GameContext.tsx:97-199 | the reducer as written keeps each capture list to its own colour and any selection on a piece of the player to move |
| `GameProperties.RunAsWrittenKeepsSound` | src/contexts/GameContext.tsx:207 | every state the reducer as written reaches from a sound state is sound in that sense; the piece count is what it loses |
| `GameProperties.TurnAlternation` | src/contexts/GameContext.tsx:165 | without a restart, the player to move changes exactly once per piece actually moved |
| `GameProperties.RestartForgetsGame` | src/contexts/GameContext.tsx:99-105 | a reset (lines 190-194) is the initial state with the old settings kept; a start is the initial state in the requested mode, marked as started, with the old settings kept (the requested colour is ignored); so both depend only on the settings, and give the initial board, White to move and empty capture lists |
| `GameProperties.ResetIdempotent` | src/contexts/GameContext.tsx:190-194 | resetting twice is the same as resetting once |
| `GameProperties.SettersChangeOneField` | src/contexts/GameContext.tsx:172-188 | each setter changes its own field and nothing else: the target list and the status become the given values, and the settings become the old settings merged with the patch |
| `GameProperties.PatchLaws` | src/contexts/GameContext.tsx:184-188 | the settings merge: the empty patch is the identity, a patch applied twice acts once, and two patches compose into one |
| `GameProperties.SelectTwiceIsStable` | src/contexts/GameContext.tsx:107-139 | clicking the same square twice has the effect of one click |
| `GameProperties.RestartConservation` | src/contexts/GameContext.tsx:190-194 | after a restart the pieces add up to sixteen per colour again; as written, any restart after a capture breaks that count |
| `GameProperties.CapturesSurviveReset` | src/contexts/GameContext.tsx:157-159 | after 1. e4 d5 2. exd5 and a reset, the as-written reducer still lists the black pawn as captured and the count breaks, while the reducer starts from empty lists |
| `Opening.NotInCheckAtHome` | src/utils/chessEngine.ts:148-178 | a colour whose only king is on its home square, facing enemy pieces that have not moved, is not in check |
| `Opening.OpeningIsPlayable` | src/contexts/GameContext.tsx:57-81 | in the starting position neither colour is in check and each has a safe move (the king's pawn double step), so neither checkmate nor stalemate holds |

## Left out

- `Ai.GetRandomMove`: `Math.random` becomes a `roll` argument. The move is taken at index `roll % |moves|`. `Math.floor(Math.random() * n)` ranges over the same indices, so only the fact that the result is one of the moves is claimed.
- `Ai.EvaluateMove`: the score is twenty times the source's floating-point score, computed exactly in integers. JavaScript rounding on near-ties (for example 3 × 0.1 + 0.2 against 5 × 0.1) can make the source prefer a later move whose score is mathematically equal; the model treats such scores as equal.
- `Game.ReduceAsWritten`: models only the shared capture arrays. The reducer also updates the moving piece object in place (src/contexts/GameContext.tsx:149-150). That object is shared with earlier boards, including `initialState`. After a restart, initial pieces can therefore carry a stale `position` and `hasMoved`. Nothing in the engine reads those fields, so the model keeps pieces as values.
- `Game.MovePieceState`: requires the source row and the destination square to be on the board. A source row or a destination row off the board makes the source throw a `TypeError` at src/contexts/GameContext.tsx:143-144. A destination column off the board reads `undefined`. If the source square is then empty, the state comes back unchanged (:146); otherwise the piece is written past the end of the row. The model does not cover that case. A source column off the board reads `undefined` and leaves the state unchanged, as modelled.
- `Game.Reduce`: on `START_GAME` and `RESET_GAME` it starts from empty capture lists, which is the corrected behaviour of the finding below. The reducer as written (src/contexts/GameContext.tsx:99-105, 190-194) keeps the lists; that is `Game.ReduceAsWritten`. `GameProperties.ReachableWellFormed` is about `Game.Reduce`. For the reducer as written, only capture colours and selection validity are proved (`GameProperties.RunAsWrittenKeepsSound`).
- `Game.ApplyPatch`: a field absent from a `Partial<GameSettings>` keeps its value. A field present but explicitly `undefined` would overwrite the setting with `undefined` in the source; the model has no such value.
- Settings are stored and merged only. `musicVolume` is a `real` that no operation reads.
- `SAVE_GAME` and `LOAD_GAME` are dispatched by dialogs but not handled by the reducer. They are the `Unhandled` action, which changes nothing, as the `default` branch does. Saved-game storage is not part of this model.
- `moveHistory` is carried in the state but never written by the reducer.
- React rendering, effects, timers, the AI "thinking" delay, sound and the pages and components that call the engine are not part of this model.
- Castling, en passant, promotion and draw rules are not implemented by the source, so they are not modelled.
- The `default` branches of `isValidMove` (unknown piece kind) and of the difficulty switch are unreachable with closed enumerations and are not modelled.
- `hasMoved` is optional in the source. An absent flag is `false` here.

## Findings

| source | as written | input that shows it | evidently intended | confidence | as-written member | corrected member |
|---|---|---|---|---|---|---|
| src/contexts/GameContext.tsx:157-159 | `MOVE_PIECE` copies `capturedPieces` with a shallow spread and pushes onto the arrays it shares with every earlier state; `START_GAME` and `RESET_GAME` spread `initialState`, whose arrays are those same arrays, so capture lists are never emptied | 1. e4 d5 2. exd5 (`MOVE_PIECE` (6,4)→(4,4), (1,3)→(3,3), (4,4)→(3,3)), then `RESET_GAME`: the black pawn is still listed as captured while all sixteen black pieces stand on the board | every new or reset game starts with empty capture lists, so pieces on the board plus captured pieces always make sixteen per colour | high; not executed | `GameProperties.CapturesSurviveReset` | `GameProperties.RestartConservation` |
