# Memory pairs game: a Dafny model

This project models the engine of a browser memory game. A board is a grid of
cells, and each cell carries a symbol and a status: Open, Closed, Done or
Failed. The player opens two cells at a time:

- a matching pair becomes Done;
- a mismatch turns Failed, and after a short delay it is Closed again.

A countdown of 100 seconds runs while the game is Running. The game is Won when
every cell is Done and Lost when the clock reaches 0, and a win is checked
first.

The engine exists twice:

- a curried TypeScript version (`components/*.tsx`) with a 6×6 board and a board
  effect gated on Running;
- an earlier uncurried JavaScript version (`components/*.js`) with a 5×6 board
  and an ungated board effect.

A builder module (`lib/builder.ts`) assembles sized boards of letters or emojis
through two builder classes and a director with three presets.

The model has five modules:

- `Wrappers`: `Option` and `Result`.
- `Cells`: the status enum and the cell predicates (`components/Cell.tsx`).
- `Boards`: the board operations of `components/Board.tsx` and
  `components/Board.js`. The two files define the same functions, and one
  Dafny function models each pair. The functions are specified against
  `Count` and `Positions`, two reference definitions of "the cells satisfying
  `p`".
- `Game`: the state transitions of `components/Game.tsx` and
  `components/Game.js`. A `Version` parameter selects the start size and
  whether the board effect is gated. The React driver becomes an explicit
  event step, described below.
- `Builders`: `WordBuilder` and `EmojiBuilder` are classes with a mutable
  `gameBoard` field. `Director` is a class with a mutable `builder` field.

The event step works like this:

- `Apply` applies one of four events, following the handlers' guards. The
  events are the start click, a cell click, one tick of the one-second
  interval, and the 500 ms revert timeout.
- `React` is one round of both effects. Both decide on the same rendered
  state, and their updates apply in declaration order: win/lose first, then
  the board.
- `Settle` repeats `React` until nothing changes. It terminates because each
  changing round either ends the game or reduces the number of open cells.
- `Step` is `Apply` followed by `Settle`.

## Model

| member | source | states |
|---|---|---|
| Cells.ExactlyOneStatus | components/Cell.tsx:9-29 | each of `isOpen`, `isClosed`, `isDone` and `isFailed` holds iff the status is the one it names, and exactly one of the four holds for every cell |
| Cells.BlockingMeans | components/Cell.tsx:31-32 | `isBlocking` holds iff the cell is Open or Failed, so Closed and Done cells never block |
| Cells.PredicatesIgnoreSymbol | components/Cell.tsx:23-32 | two cells with the same status give the same result for all five predicates, whatever their symbols |
| Boards.Count | components/Board.tsx:23-31 | the number of cells satisfying a predicate is at most the board length; it is the reference for the lengths of `getStatusesBy`, `getSymbolsBy` and `R.filter` |
| Boards.Positions | components/Board.tsx:23-31 | the indices of the matching cells: as many as `Count`, and all of them in range |
| Boards.PositionsMeans | components/Board.tsx:23-31 | every listed index satisfies the predicate, the list is strictly increasing (board order), and every matching index is listed |
| Boards.PositionsSound | components/Board.tsx:23-31 | every listed index satisfies the predicate (by induction) |
| Boards.PositionsIncreasing | components/Board.tsx:23-31 | the listed indices are strictly increasing (by induction) |
| Boards.PositionsComplete | components/Board.tsx:23-31 | every index whose cell satisfies the predicate is listed (by induction) |
| Boards.Project | components/Board.tsx:45-53 | `R.chain(c => p(c) ? [f(c)] : [])`: one value per matching cell, namely the value `f` gives the k-th matching cell in board order |
| Boards.SetStatusAt | components/Board.tsx:17-21 | `setStatusAt` (also components/Board.js:14-21): the length is kept, index `i` gets the new status and keeps its symbol, and every other cell is unchanged |
| Boards.StatusAtAfterSet | components/Board.tsx:12-21 | `getStatusAt` after `setStatusAt` reads back the written status at `i` and the old status elsewhere |
| Boards.SetStatusesBy | components/Board.tsx:33-43 | `setStatusesBy` (also components/Board.js:23-25): the length is kept, each matching cell gets the new status and keeps its symbol, and non-matching cells are identical |
| Boards.StatusesBy | components/Board.tsx:23-31 | `getStatusesBy` (also components/Board.js:27-29): as many statuses as matching cells, the k-th being the status of the k-th matching cell |
| Boards.SymbolsBy | components/Board.tsx:45-53 | `getSymbolsBy` (also components/Board.js:31-33): as many symbols as matching cells, the k-th being the symbol of the k-th matching cell |
| Boards.Filter | components/Game.tsx:60-61 | `R.filter(isDone, board)`: as many cells as match, the k-th being the k-th matching cell of the board in board order, so each of them matches |
| Boards.CanOpenAt | components/Board.tsx:55-60 | `canOpenAt` (also components/Board.js:35-41) holds iff `i` is in range, cell `i` is Closed, and fewer than two cells are blocking |
| Boards.OpenLegalCell | components/Board.tsx:55-60 | opening a cell that `canOpenAt` admits adds exactly one Open cell and one blocking cell, and leaves at most two blocking |
| Boards.CanOpenOnlyClosed | components/Board.tsx:58-59 | a cell that is not Closed can never be opened |
| Boards.OpensExclusive | components/Board.tsx:62-70 | `areOpensEqual` and `areOpensDifferent` (also components/Board.js:43-51) never hold together, both fail with fewer than two open cells, and one of them holds with two or more |
| Boards.AreOpensEqualMeans | components/Board.tsx:62-65 | `areOpensEqual` holds iff at least two cells are open and any two open cells show the same symbol |
| Boards.AreOpensDifferentMeans | components/Board.tsx:67-70 | `areOpensDifferent` holds iff at least two cells are open and some two open cells show different symbols |
| Boards.CountTwo | components/Board.tsx:64 | two distinct matching cells make the count at least two |
| Boards.CountZero | components/Board.tsx:23-31 | no cell matches iff the count is 0 |
| Boards.CountAll | components/Game.tsx:60-61 | every cell matches iff the count equals the board length |
| Boards.CountUpdate | components/Board.tsx:17-21 | replacing one cell changes the count by what is removed and what is added |
| Boards.CountMono | components/Board.tsx:33-43 | a board that matches only where another one matches has the smaller or equal count |
| Boards.CheckSize | components/Board.tsx:75-76 | "too big" iff `m*n > 52`; otherwise "must be even" iff `m*n` is odd; otherwise no error (also components/Board.js:56-57) |
| Boards.ExceedsAlphabetMeans | components/Board.tsx:75 | the real-valued test `(m*n)/2 > 26` is the same as `m*n > 52` |
| Boards.Letters | components/Board.tsx:79-80 | `String.fromCharCode(i + 'A')` for `i` in `[0, k)`: exactly `k` symbols |
| Boards.LettersDistinct | components/Board.tsx:72-80 | the generated letters are pairwise distinct one-character strings between `A` and `Z` |
| Boards.Duplicate | components/Board.tsx:81 | `R.chain(x => [x, x])` doubles the length and holds every symbol exactly twice as often |
| Boards.DistinctCount | components/Board.tsx:79-81 | in a sequence of distinct symbols each one occurs once |
| Boards.PairedBoard | components/Board.tsx:81-83 | after the shuffle every generated cell is Closed |
| Boards.SymbolsOfClosedCells | components/Board.tsx:83 | mapping symbols to Closed cells keeps the symbols in order |
| Boards.ShuffledPairs | components/Board.tsx:81-82 | a permutation of the doubled distinct symbols is twice as long, holds each symbol exactly twice, and holds nothing else |
| Boards.PairedBoardPairs | components/Board.tsx:78-84 | with distinct symbols and a permuting shuffle, the board has two cells per symbol, all Closed, and no other symbols |
| Boards.MakeRandom | components/Board.tsx:74-85 | `makeRandom` (also components/Board.js:55-66) fails exactly when the size check fails, with that check's error; on success at most 26 pairs are drawn and every cell is Closed |
| Boards.MakeRandomPairs | components/Board.tsx:74-85 | when the size check passes and the shuffle permutes, `makeRandom(m, n)` yields `m*n` Closed cells in which each of the first `(m*n)/2` letters appears exactly twice and nothing else appears |
| Game.StartLetters | components/Game.tsx:21 | a new board uses 18 letter pairs in TypeScript (6×6) and 15 in JavaScript (5×6, components/Game.js:16) |
| Game.StartGame | components/Game.tsx:27-31 | `startGame` (also components/Game.js:15-19) is Running with 100 seconds on the clock and every cell Closed |
| Game.StartGamePairs | components/Game.tsx:21-31 | with a permuting shuffle, a new game has 36 cells (TypeScript) or 30 cells (JavaScript), two of each letter |
| Game.Initial | components/Game.tsx:77-80 | the view starts from a fresh board, Stopped, with 100 seconds (also components/Game.js:60-63) |
| Game.OpenCell | components/Game.tsx:33-38 | `openCell` (also components/Game.js:21-24) makes cell `i` Open with its symbol kept, changes no other cell, and keeps the clock and the status |
| Game.OpenCellLegal | components/Game.tsx:33-43 | when `canOpenCell` holds, the cell was Closed, exactly one more cell is Open, and at most two cells block |
| Game.SucceedStep | components/Game.tsx:45-48 | `succeedStep` (also components/Game.js:30-33) turns every Open cell Done, leaves no Open cell, and changes nothing else |
| Game.FailStep1 | components/Game.tsx:50-53 | `failStep1` (also components/Game.js:35-38) turns every Open cell Failed, leaves no Open cell, and changes nothing else |
| Game.FailStep2 | components/Game.tsx:55-58 | `failStep2` (also components/Game.js:40-43) turns every Failed cell Closed, leaves no Failed cell, and changes nothing else |
| Game.FailThenRevert | components/Game.tsx:50-58 | on a board without Failed cells, `failStep1` then `failStep2` closes exactly the cells that were Open; Done cells, the clock and the status stay |
| Game.RevertWithoutFailed | components/Game.tsx:55-58 | `failStep2` on a board without Failed cells changes nothing |
| Game.HasWinningCond | components/Game.tsx:60-61 | `hasWinningCond` (also components/Game.js:45-46) holds iff every cell is Done |
| Game.SetStatus | components/Game.tsx:65-67 | `setStatus` (also components/Game.js:50) replaces the status only |
| Game.NextSecond | components/Game.tsx:69-72 | `nextSecond` (also components/Game.js:52-55) takes one second off a positive clock, stops at 0, never increases, and changes nothing else |
| Game.TicksCountDown | components/Game.tsx:69-72 | after `k` ticks the clock reads `max(secondsLeft - k, 0)`, with board and status unchanged; 100 ticks from a new game reach 0 |
| Game.ReactProgress | components/Game.tsx:97-119 | a round of the effects that changes something either ends a Running game or lowers the number of open cells |
| Game.Settle | components/Game.tsx:97-119 | repeating the effects ends in a state on which neither effect does anything |
| Game.Step | components/Game.tsx:84-133 | every event, with the effects it triggers, ends in a state on which neither effect does anything |
| Game.ReactStatus | components/Game.tsx:60-105 | one round of the effects sets a Running game to Won when every cell is Done, else to Lost when the clock shows 0 (`hasLosingCond` is `!secondsLeft`), and changes no other status (also components/Game.js:79-87) |
| Game.WinBeforeLose | components/Game.tsx:97-104 | for any shuffle, a Running game with every cell Done and the clock at 0 ends Won after the tick, not Lost |
| Game.SettleStatus | components/Game.tsx:97-105 | when the win/lose effect ends a Running game, settling keeps that outcome |
| Game.SettleKeepsFinished | components/Game.tsx:97-105 | a game that is not Running keeps its status through any number of rounds |
| Game.GatedBoardEffect | components/Game.tsx:108-119 | in TypeScript no effect changes a game that is not Running |
| Game.UngatedBoardEffect | components/Game.js:90-99 | in JavaScript a game that is not Running, with two or more open cells sharing a symbol, still has them resolved: the reaction is exactly `succeedStep`; in TypeScript (components/Game.tsx:108-119) the same state is left alone |
| Game.NoOutcome | components/Game.tsx:97-105 | a Running game with time left and a cell not Done is neither won nor lost |
| Game.ReactOnMatch | components/Game.tsx:108-111 | while Running with time left and a cell not Done, two or more open cells that all share a symbol make the reaction exactly `succeedStep` |
| Game.ReactOnMismatch | components/Game.tsx:112-116 | while Running with time left and a cell not Done, two open cells with different symbols make the reaction exactly `failStep1` |
| Game.QuietSettled | components/Game.tsx:97-119 | a Running game with time left, a cell not Done and at most one open cell triggers no effect |
| Game.ClosedBoardSettled | components/Game.tsx:97-119 | a Running game with time left on a nonempty all-Closed board triggers no effect |
| Game.StartSettled | components/Game.tsx:27-31 | a new game with a permuting shuffle triggers no effect |
| Game.SettleSettled | components/Game.tsx:97-119 | settling a state at rest leaves it unchanged |
| Game.StepOfSettled | components/Game.tsx:84-119 | when an event leads to a state at rest, the step ends there |
| Game.StepOfOneReaction | components/Game.tsx:84-119 | when one round after an event brings the state to rest, the step ends there |
| Game.GuardsIgnore | components/Game.tsx:84-94 | from a state at rest: a start click is ignored while Running; cell clicks and ticks are ignored outside Running; a click `canOpenCell` rejects is ignored (also components/Game.js:66-76) |
| Game.StartFromIdle | components/Game.tsx:84-88 | outside Running a start click gives exactly a new Running game, which no effect then changes |
| Game.StaleRevertHarmless | components/Game.tsx:114-116 | the uncancelled revert timeout, fired on a new game before any of its cells has failed, changes nothing |
| Game.StaleRevertEarly | components/Game.tsx:114-116 | the uncancelled revert timeout, fired after the new game's first mismatch, closes that new Failed pair ahead of its own timeout, which then changes nothing |
| Game.ClickOpens | components/Game.tsx:90-94 | while Running, a click that `canOpenCell` admits opens that cell |
| Game.InitialInv | components/Game.tsx:77-80 | the initial state and a new game meet the invariant: 0 to 100 seconds on the clock and at most two blocking cells |
| Game.BoardUpdateFollows | components/Game.tsx:108-119 | a board update keeps the length, the symbols, Done cells and the status, and blocks no cell that was not blocking |
| Game.ReactFollows | components/Game.tsx:97-119 | a round of the effects continues the game (same cells and symbols, Done stays Done, the clock does not move, a finished status stays) and keeps the invariant |
| Game.SettleFollows | components/Game.tsx:97-119 | settling continues the game and keeps the invariant (by induction on the rounds) |
| Game.ApplyFollows | components/Game.tsx:84-133 | each event alone keeps the invariant and, except for a start outside Running, continues the game |
| Game.FollowsTransitive | components/Game.tsx:84-133 | continuing a continuation continues the original game |
| Game.StepFollows | components/Game.tsx:84-133 | every step keeps the clock within [0, 100] and at most two cells blocking; every step except a start outside Running keeps the cells' symbols, keeps Done cells Done, never raises the clock, and never changes a finished status |
| Game.FirstOpenSettles | components/Game.tsx:90-94 | on the closed board `[A, B, A, B]`, clicking cell 0 opens it and triggers no effect |
| Game.OneOpenCell | components/Game.tsx:90-94 | after that click exactly one cell blocks |
| Game.SecondOpenMatches | components/Game.tsx:108-111 | then clicking cell 2 resolves the `A` pair to Done and the game goes on |
| Game.MatchReaction | components/Game.tsx:108-111 | two open `A` cells on that board are resolved to Done |
| Game.MatchSucceeds | components/Game.tsx:45-48 | `succeedStep` on that board gives `[A Done, B Closed, A Done, B Closed]` |
| Game.MatchingPairScenario | components/Game.tsx:90-119 | opening cells 0 and 2 of `[A, B, A, B]` leaves `[A Done, B Closed, A Done, B Closed]` with the game Running |
| Game.SecondOpenFails | components/Game.tsx:112-116 | clicking cell 1 after cell 0 fails both cells |
| Game.MismatchReaction | components/Game.tsx:112-116 | an open `A` and an open `B` on that board are marked Failed |
| Game.MismatchFails | components/Game.tsx:50-53 | `failStep1` on that board gives `[A Failed, B Failed, A Closed, B Closed]` |
| Game.RevertCloses | components/Game.tsx:114-116 | the revert timeout then closes the failed pair again |
| Game.MismatchScenario | components/Game.tsx:90-119 | opening cells 0 and 1 of `[A, B, A, B]` fails both, and the revert timeout restores the closed board |
| Builders.MakeEmojiBoard | lib/builder.ts:52-65 | the emoji pipeline fails exactly when the size check fails, with that check's error (the 26-pair cap applies to emojis too); on success every cell is Closed |
| Builders.MakeEmojiBoardPairs | lib/builder.ts:58-64 | with distinct table entries and a permuting shuffle, the emoji board holds `m*n` Closed cells, each of the first `(m*n)/2` emojis exactly twice |
| Builders.WordBuilder.constructor | lib/builder.ts:75-79 | a new word builder holds an empty 0×0 board |
| Builders.WordBuilder.Reset | lib/builder.ts:80-82 | `reset` empties the board and sets the size to 0×0 |
| Builders.WordBuilder.SetSize | lib/builder.ts:84-89 | `setSize` stores exactly the given size and leaves the cells untouched |
| Builders.WordBuilder.SetCells | lib/builder.ts:91-104 | `setCells` reports the size check's error and changes nothing, or replaces the cells with `makeRandom` for the stored size |
| Builders.WordBuilder.GetBoard | lib/builder.ts:106-110 | `getBoard` returns the held board unchanged and leaves the builder reset |
| Builders.EmojiBuilder.constructor | lib/builder.ts:35-39 | a new emoji builder holds an empty 0×0 board and the given table |
| Builders.EmojiBuilder.Reset | lib/builder.ts:41-43 | `reset` empties the board and sets the size to 0×0 |
| Builders.EmojiBuilder.SetSize | lib/builder.ts:45-50 | `setSize` stores exactly the given size and leaves the cells untouched |
| Builders.EmojiBuilder.SetCells | lib/builder.ts:52-65 | `setCells` reports the size check's error and changes nothing, or replaces the cells with the emoji pipeline for the stored size |
| Builders.EmojiBuilder.GetBoard | lib/builder.ts:67-71 | `getBoard` returns the held board unchanged and leaves the builder reset |
| Builders.Build | lib/builder.ts:124-128 | `setSize; setCells; getBoard` fails exactly when the size check fails; on success it gives a board of the requested size with every cell Closed |
| Builders.BuildPairs | lib/builder.ts:124-140 | when the size check passes (and, for emojis, the first 26 entries are distinct) and the shuffle permutes, a built board has `m*n` cells, two of each symbol |
| Builders.PresetsFit | lib/builder.ts:124-140 | 4×5, 5×6 and 6×7 pass both checks, with 10, 15 and 21 pairs |
| Builders.Director.constructor | lib/builder.ts:116-118 | the director starts with the given builder |
| Builders.Director.SetBuilder | lib/builder.ts:120-122 | `setBuilder` makes the given builder the one every later `create*` call uses |
| Builders.Director.Create | lib/builder.ts:124-128 | drives the held builder through the three calls. The result is `Build` for that size. On success the builder is left reset. On failure `getBoard` is never reached, so the builder keeps its cells with the new size |
| Builders.Director.CreateLow | lib/builder.ts:124-128 | `createLowGameBoard` always succeeds with a 4×5 board and leaves the builder reset |
| Builders.Director.CreateMed | lib/builder.ts:130-134 | `createMedGameBoard` always succeeds with a 5×6 board and leaves the builder reset |
| Builders.Director.CreateHigh | lib/builder.ts:136-140 | `createHighGameBoard` always succeeds with a 6×7 board and leaves the builder reset |

## Left out

- View code is not modelled: `GameView`, `StatusLineView`, `ScreenBoxView`, `BoardView` with its grid CSS loop, `ScreenView`, `cellView`, both `statusToBackground` functions and `pages/_app.js`.
- Timers and effect scheduling are not modelled. The 1000 ms interval becomes a `Tick` event, which applies only while Running. The 500 ms timeout becomes a `RevertTimeout` event, which applies in whatever state it finds, since nothing cancels it. Timing and interleaving of real time are outside the model.
- Effect re-firing: `React` runs both effects on every round. React re-runs the win/lose effect when the state changes and the board effect when the board (or, in TypeScript, the status) changes. The two agree whenever a step starts from a settled state, which every `Step` result is.
- `L.shuffle` is a foreign call. It is a function parameter, and where a property needs it to permute, the lemma takes the multiset equality as a hypothesis. Randomness is outside the model.
- `L.allEquals` is a foreign call. It is modelled as "every element equals the first".
- The emoji table's contents are not modelled, because their text is not reliably readable. `EmojiTable` is any sequence of at least 26 strings, and the module-level `emojiTable` that the source's argument-less `constructor()` reads becomes an argument of `EmojiBuilder`'s constructor. "Exactly twice" for emojis assumes the first 26 entries are distinct.
- Negative indices and sizes are outside the model: indices, widths and heights are `nat`. `SetStatusAt` and `OpenCell` require an in-range index; the lens's behaviour outside the array is not modelled.
- `Boards.StatusAt`: `getStatusAt` has no contract of its own; it is characterised through `StatusAtAfterSet`.
- Builders: a thrown error becomes an `Option`/`Result` value. The statements after the throw are skipped, as in the source.
