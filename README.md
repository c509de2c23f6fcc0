# Sudoku game session, modelled in Dafny

This project models the puzzle engine of a single-player Sudoku game. The game keeps one
puzzle attempt as a `SudokuState` record: the board, the initial puzzle, the solution, pencil
notes, the selected cell, mistakes, a countdown, a pause flag, a completion flag and an undo
history. The model covers:

- the actions that replace that record: select a cell, press a digit (place or toggle a note),
  pause, undo, erase, reveal, the one-second timer tick, and level start/change;
- the component state around the record: notes mode, the pending level change, completed
  levels, the last award, and the player's credits and score;
- the static table of 150 levels with their difficulty tiers, clue counts and time budgets.

Files:

- `wrappers.dfy`: `Option`.
- `levels.dfy` (module `Levels`): the level table of `constants.ts`, the `find` lookup and the
  fallback to level 1.
- `grid.dfy` (module `Grid`): 9x9 boards (`seq<seq<int>>`, `0` standing for the source's
  `null`), note grids (`seq<seq<set<int>>>`), writing one cell, toggling one note, and the
  completion test.
- `session.dfy` (module `Session`): the `SudokuState` record, its invariant `ValidState`, and
  one function per transform. React replaces the record wholesale on every action, so each
  transform is a function from the old record to the new one.
- `session_laws.dfy` (module `SessionLaws`): what each transform promises, plus `Run` over a
  sequence of inputs with the session-long monotonicity lemma.
- `app.dfy` (module `App`): class `Game`, holding the record and the component state beside
  it. It has one method per user action, timer callback and level change, plus the
  completed-level list, the score award and reveal's credit charge.

The model keeps these behaviours of the code:

- The tick is not stopped once mistakes reach the cap. It stops only when the game is paused,
  complete, out of time, or a level change is pending.
- Pause toggles even after completion or game over.
- Undo and erase have no terminal-state guard, and undo never clears `isComplete`.
- Erasing an already-empty cell still pushes a history entry.
- Digit presses and cell clicks are not ignored during a level change; only the action
  buttons are.
- Reveal presses the digit in whatever notes mode is on. In notes mode it toggles a note,
  after charging the credits.
- A placement never clears notes.
- An unknown level id gets level 1's configuration but is still stored as the session's
  level.

One method departs from the code. `App.Game.Reveal` charges reveals with the corrected rule
from "## Findings": every paid reveal costs 10 credits. In the code, a reveal that completes
the puzzle gets its 10 credits back, because the award at App.tsx:242 overwrites the
deduction at App.tsx:268. That as-written behaviour is modelled separately by
`App.RevealProfileAsWritten`.

## Model

| member | source | states |
|---|---|---|
| `Levels.Table` | constants.ts:4-7 | the table has exactly 150 entries and entry i describes level i+1 |
| `Levels.TableTiers` | constants.ts:8-20 | ids 121..150 are Expert/24 clues, 71..120 Hard/30, 31..70 Medium/36, 1..30 Easy/45 |
| `Levels.CluesNonIncreasing` | constants.ts:8-20 | the clue count never grows with the level id and stays within 24..45 |
| `Levels.Find` | App.tsx:161 | `find` yields nothing exactly when no entry has the id, and otherwise the first entry with that id |
| `Levels.LevelConfig` | App.tsx:161 | ids 1..150 get their own table entry; any other id gets level 1's entry (Easy, 45 clues) |
| `Session.TimeLimit` | App.tsx:163-166 | every tier's budget is a whole number of minutes between 10 and 20 |
| `Session.LevelTimeLimit` | App.tsx:161-166 | a session for level 121..150 gets 600 s, 71..120 gets 720 s, 31..70 gets 900 s, any other id 1200 s |
| `Session.NewSession` | App.tsx:160-182 | a fresh record is valid; board, initial board and the only history entry are the puzzle; no notes, no selection, 0 mistakes of 3, timer 0, not paused or complete; the requested id is stored; the countdown is the tier's budget |
| `Grid.EmptyNotes` | App.tsx:172 | a 9x9 grid whose note sets are all empty |
| `Grid.SetCell` | App.tsx:237 | the new board is 9x9, holds the value at (r, c) and agrees with the old board everywhere else |
| `Grid.ToggleNote` | App.tsx:212-220 | the digit's membership in the selected cell's notes flips; every other digit and every other cell keeps its notes |
| `Grid.SolvedIsEquality` | App.tsx:238 | the cell-by-cell completion test holds exactly when the board equals the solution |
| `Session.Place` | App.tsx:204-247 | a digit press keeps the record valid: clues untouched, history starting at the puzzle and ending at the board, mistakes at most 3 |
| `SessionLaws.PlaceNoOpIff` | App.tsx:205-228 | a press changes nothing exactly when nothing is selected, the game is complete, paused or over, the cell is a clue, or (outside notes mode) the digit is already there; a press yields no outcome exactly when it changes nothing, so a repeated tap gives no outcome and no award |
| `SessionLaws.PlaceNote` | App.tsx:209-223 | in notes mode only the selected cell's membership of the digit flips; board, mistakes, history and completion are unchanged |
| `SessionLaws.PlaceCommit` | App.tsx:228-245 | a committed press changes only that board cell, adds exactly one mistake iff the digit is wrong, appends the new board to history, keeps the notes, completes iff the board equals the solution, and awards 100 + 2 * timeLeft on completion |
| `SessionLaws.CompletionIsFinal` | App.tsx:205 | after the completing press every further press is ignored, so completion fires once |
| `Session.IsGameOver` | App.tsx:283 | in a valid record the derived game-over flag holds exactly when mistakes equal the cap of 3 or the countdown equals 0 |
| `Session.Score` | App.tsx:240 | a completion played with time left is worth at least 100 points |
| `Session.ScoreRewardsSpeed` | App.tsx:240 | more seconds left never earn fewer points |
| `SessionLaws.GameOverExactly` | App.tsx:283 | in a valid record the game is over iff mistakes equal 3 or the countdown equals 0, and then no press changes anything |
| `Session.SelectCell` | App.tsx:351 | selecting an in-grid cell keeps the record valid |
| `Session.TogglePause` | App.tsx:253 | the pause flag flips and nothing else changes |
| `Session.Undo` | App.tsx:254-256 | undo keeps the record valid: history never drops below one entry and its last entry is the board |
| `SessionLaws.UndoLaw` | App.tsx:254-256 | with one history entry undo is a no-op; otherwise it drops the last entry and shows the one before it, leaving mistakes and completion unchanged |
| `SessionLaws.UndoAfterPlace` | App.tsx:245-256 | undo right after a committed press restores the board and history but not the mistake count or the completion flag |
| `Session.Erase` | App.tsx:258-262 | erase keeps the record valid (clues are never erased) |
| `SessionLaws.EraseLaw` | App.tsx:258-262 | erase of a selected non-clue cell empties exactly that cell and appends the new board, changing nothing else; otherwise it is a no-op |
| `SessionLaws.UndoAfterErase` | App.tsx:254-262 | undo right after an erase restores the board and the history |
| `Session.Reveal` | App.tsx:266-269 | the reveal press keeps the record valid |
| `SessionLaws.RevealIsCorrect` | App.tsx:266-269 | outside notes mode a reveal never adds a mistake; on an unlocked session with a selected non-clue cell it leaves the solution's digit there; on a paused, complete or lost session it is ignored and the cell keeps its value |
| `Session.Tick` | App.tsx:196-199 | a tick keeps the record valid |
| `SessionLaws.TickLaw` | App.tsx:196-199 | while the timer runs (not paused, not complete, time left, no level change) a tick adds one second to the timer and takes one from the countdown; otherwise nothing changes; the countdown never rises and never goes below 0 |
| `SessionLaws.Run` | App.tsx:196-272 | every record reached by any sequence of clicks, presses, actions and ticks is valid |
| `SessionLaws.StepProgresses` | App.tsx:196-272 | one input never lowers mistakes, raises the countdown, lowers the timer, changes the puzzle, solution or level, or reopens a finished puzzle; it adds at most one mistake; only undo shortens the history |
| `SessionLaws.RunProgresses` | App.tsx:196-272 | the same holds over any whole sequence of inputs |
| `SessionLaws.StepKeepsTerminalExclusive` | App.tsx:197-245 | no single input makes a finished puzzle also lost: completion and game over stay mutually exclusive |
| `SessionLaws.RunKeepsTerminalExclusive` | App.tsx:196-272 | over any sequence of inputs, a complete session is never also over |
| `App.NextLevelId` | App.tsx:348 | the next level is id + 1, wrapping from 150 back to 1; for any id ≥ 0 it lies in 1..150 |
| `App.Dedup` | App.tsx:243 | the deduplicated list has no repeats and the same elements as its input |
| `App.DedupOfDistinct` | App.tsx:243 | a list without repeats is left exactly as it is |
| `App.MarkCompleted` | App.tsx:243 | the progress list has no repeats and holds exactly the earlier levels plus the completed one |
| `App.MarkCompletedLaw` | App.tsx:243 | marking a level adds it once at the end if it is new and otherwise leaves the list unchanged |
| `App.AddPoints` | App.tsx:242 | the signed-in player's score grows by the award and their credits are kept; no profile stays no profile |
| `App.RevealProfile` | App.tsx:265-269 | a paid reveal always costs 10 credits and adds any completion award to the score |
| `App.RevealRefundAsWritten` | App.tsx:242 | as written, a reveal that completes the puzzle leaves the credits where they were |
| `App.Game.constructor` | App.tsx:160-182 | the first session is `NewSession` of the requested level, with notes mode off, no pending level change and no award |
| `App.Game.InitLevel` | App.tsx:160-185 | the record is replaced by `NewSession` and the last award is reset to 0 |
| `App.Game.TransitionToLevel` | App.tsx:187-190 | a level change becomes pending and its timeout is queued |
| `App.Game.FinishTransition` | App.tsx:190-193 | the oldest queued timeout starts its level and clears the pending flag |
| `App.Game.AdvanceLevel` | App.tsx:348 | the NEXT LEVEL button queues a change to the wrapped next level |
| `App.Game.Tick` | App.tsx:196-202 | the record advances by `Session.Tick`, reading the pending-change flag; the countdown never rises |
| `App.Game.SelectCell` | App.tsx:351 | only the selection changes |
| `App.Game.UpdateCell` | App.tsx:204-247 | the record becomes `Session.Place`'s; mistakes never fall; a completing press sets the award, adds it to the profile's score and records the level once |
| `App.Game.ToggleNotesMode` | App.tsx:250-252 | notes mode flips unless a level change is pending |
| `App.Game.Pause` | App.tsx:250-253 | pause toggles unless a level change is pending |
| `App.Game.Undo` | App.tsx:250-256 | undo applies unless a level change is pending; mistakes and completion are kept |
| `App.Game.Erase` | App.tsx:250-262 | erase applies unless a level change is pending; mistakes are kept |
| `App.Game.Reset` | App.tsx:250-257 | unless a level change is pending, a restart of the current level is queued |
| `App.Game.Reveal` | App.tsx:250-270 | refused exactly when no level change is pending and the player has no profile or fewer than 10 credits; on a selected non-clue cell it charges 10 credits and presses the solution's digit, even if the press is then ignored; otherwise nothing changes |

## Left out

- The puzzle generator (`services/sudokuLogic.ts`) is not part of this model. Level starts
  take its output `(initial, solution)` as inputs. The solution must hold digits in every
  cell, and every puzzle cell must be empty or hold the solution's digit. The clue count
  passed to the generator, and whether the solution obeys the Sudoku rules, are not modelled.
- Audio feedback (`services/audioService.ts` and its calls in `App.tsx`) is not modelled: it
  is Web Audio I/O with no effect on the game state.
- `localStorage` persistence, the chat bots, the mock leaderboard, unread counts, the
  purchase handler, the profile and payment pages and all rendering are not modelled. They
  are presentation, mock data or platform I/O. Saved progress and the player's profile enter
  the `Game` constructor as parameters instead.
- Real-time scheduling is not modelled. The one-second interval is an explicit `Tick` call.
  The 400 ms level-change timeout is an explicit `FinishTransition` call, taking the queued
  timeouts in order.
- The game before any session exists is not modelled: a `Game` is built by the first level
  start, so the source's `!state` guards never apply.
- The profile keeps only credits and total score. Name, e-mail, avatar, sound and music
  settings and purchase history do not affect the game logic.
- Digits are assumed to be 1..9. The digit pad and the reveal are the only callers, and `0`
  stands for an empty cell here.
- Cell clicks are assumed to be inside the grid. The grid component that sends them is not
  part of this model.
- Which inputs the screen offers is not modelled. The pause, game-over and completion
  overlays cover the grid, and the NEXT LEVEL button exists only on the completion
  overlay. The model accepts cell clicks and `App.Game.AdvanceLevel` in every state, and
  its lemmas hold for all such inputs.
- `App.Dedup`: states no repeats and the same elements, not that first occurrences keep
  their order; `App.MarkCompletedLaw` gives the exact list when the old list has no
  repeats.

## Findings

| source | as written | input that shows it | evidently intended | confidence | as-written member | corrected member |
|---|---|---|---|---|---|---|
| App.tsx:242 | the award for a completing press is added to the profile captured when the action started. During a reveal, that profile predates the deduction of the reveal cost at App.tsx:268, and the later write overwrites it | a session whose only empty cell is selected, a player with 10 credits, reveal: the puzzle completes and the player still has 10 credits | a reveal always costs 10 credits, including the one that completes the puzzle | medium, not executed | `App.RevealProfileAsWritten`, shown by `App.RevealRefundAsWritten` | `App.RevealProfile`, used by `App.Game.Reveal` |
