/**
 * One puzzle attempt: the SudokuState record of types.ts and the transforms
 * App.tsx applies to it. React replaces the record wholesale on every
 * action (`setState({ ...state, ... })`), so each transform here is a
 * function from the old record to the new one; the App module's Game class
 * holds the current record and calls them.
 */
module Session {
  import opened Wrappers
  import opened Grid
  import Levels

  datatype Cell = Cell(row: int, col: int)

  datatype SudokuState = SudokuState(
    board: Board,
    initialBoard: Board,
    solution: Board,
    notes: Notes,
    selectedCell: Option<Cell>,
    mistakes: int,
    maxMistakes: int,
    isComplete: bool,
    level: int,
    timer: int,
    timeLeft: int,
    isPaused: bool,
    history: seq<Board>)

  const MaxMistakes: int := 3

  /**
   * What every reachable record satisfies: well-shaped grids, clues never
   * overwritten, a non-empty history that starts at the initial puzzle and
   * ends at the board, bounded counters, and a selection inside the grid.
   */
  predicate ValidState(s: SudokuState)
  {
    && IsSolution(s.solution)
    && IsPuzzleOf(s.initialBoard, s.solution)
    && Keeps(s.board, s.initialBoard)
    && IsNotes(s.notes)
    && |s.history| >= 1
    && s.history[0] == s.initialBoard
    && s.history[|s.history| - 1] == s.board
    && (forall i :: 0 <= i < |s.history| ==> Keeps(s.history[i], s.initialBoard))
    && s.maxMistakes == MaxMistakes
    && 0 <= s.mistakes <= s.maxMistakes
    && s.timer >= 0
    && s.timeLeft >= 0
    && (s.selectedCell.Some? ==> InRange(s.selectedCell.value.row, s.selectedCell.value.col))
  }

  /** The countdown budget of a difficulty tier, in seconds. */
  function TimeLimit(d: Levels.Difficulty): (secs: int)
    ensures 10 * 60 <= secs <= 20 * 60 && secs % 60 == 0
  {
    if d == Levels.Medium then 15 * 60
    else if d == Levels.Hard then 12 * 60
    else if d == Levels.Expert then 10 * 60
    else 20 * 60
  }

  /** The countdown a session for `levelId` starts with; unknown ids get level 1's budget. */
  lemma LevelTimeLimit(levelId: int)
    ensures var secs := TimeLimit(Levels.LevelConfig(levelId).difficulty);
      && (121 <= levelId <= Levels.TotalLevels ==> secs == 600)
      && (71 <= levelId <= 120 ==> secs == 720)
      && (31 <= levelId <= 70 ==> secs == 900)
      && (!(31 <= levelId <= Levels.TotalLevels) ==> secs == 1200)
  {
  }

  /**
   * initLevel: a fresh record around a generated puzzle. The configuration
   * comes from the level table (level 1's when the id is unknown), but the
   * requested id is what the record stores.
   */
  function NewSession(levelId: int, initial: Board, solution: Board): (s: SudokuState)
    requires IsSolution(solution) && IsPuzzleOf(initial, solution)
    ensures ValidState(s)
    ensures s.board == initial && s.initialBoard == initial && s.solution == solution
    ensures s.history == [initial]
    ensures forall r, c :: 0 <= r < Size && 0 <= c < Size ==> s.notes[r][c] == {}
    ensures s.selectedCell == None && s.mistakes == 0 && s.maxMistakes == 3
    ensures !s.isComplete && !s.isPaused && s.timer == 0 && s.level == levelId
    ensures s.timeLeft == TimeLimit(Levels.LevelConfig(levelId).difficulty)
  {
    var config := Levels.LevelConfig(levelId);
    SudokuState(
      board := initial,
      initialBoard := initial,
      solution := solution,
      notes := EmptyNotes(),
      selectedCell := None,
      mistakes := 0,
      maxMistakes := MaxMistakes,
      isComplete := false,
      level := levelId,
      timer := 0,
      timeLeft := TimeLimit(config.difficulty),
      isPaused := false,
      history := [initial])
  }

  /** The derived game-over flag: out of mistakes or out of time. */
  predicate IsGameOver(s: SudokuState)
    ensures ValidState(s) ==> (IsGameOver(s) <==> s.mistakes == MaxMistakes || s.timeLeft == 0)
  {
    s.mistakes >= s.maxMistakes || s.timeLeft <= 0
  }

  /** Points for completing a puzzle with `timeLeft` seconds to spare. */
  function Score(timeLeft: int): (points: int)
    ensures timeLeft >= 0 ==> points >= 100
  {
    100 + timeLeft * 2
  }

  /** More time left never earns fewer points. */
  lemma ScoreRewardsSpeed(slower: int, faster: int)
    requires slower <= faster
    ensures Score(slower) <= Score(faster)
  {
  }

  /** The event a digit press produces, for the caller's sounds and scoring. */
  datatype Outcome = Ignored | Noted | Correct | Incorrect | Completed(points: int)

  datatype Placement = Placement(next: SudokuState, outcome: Outcome)

  /** The early returns of updateCell: nothing selected, finished, paused, game over, or a clue cell. */
  predicate Locked(s: SudokuState)
    requires ValidState(s)
  {
    || s.selectedCell.None?
    || s.isComplete
    || s.isPaused
    || IsGameOver(s)
    || s.initialBoard[s.selectedCell.value.row][s.selectedCell.value.col] != Empty
  }

  /**
   * updateCell(num): in notes mode flip `num` in the selected cell's notes;
   * otherwise write it to the board unless it is already there, count a
   * mistake when it is not the solution's digit, push the new board on the
   * history and recompute completion.
   */
  function Place(s: SudokuState, num: int, notesMode: bool): (p: Placement)
    requires ValidState(s) && IsDigit(num)
    ensures ValidState(p.next)
  {
    if Locked(s) then Placement(s, Ignored)
    else
      var r, c := s.selectedCell.value.row, s.selectedCell.value.col;
      if notesMode then Placement(s.(notes := ToggleNote(s.notes, r, c, num)), Noted)
      else if s.board[r][c] == num then Placement(s, Ignored)
      else
        var isCorrect := s.solution[r][c] == num;
        var newBoard := SetCell(s.board, r, c, num);
        var isComplete := Solved(newBoard, s.solution);
        var next := s.(board := newBoard,
                       mistakes := if isCorrect then s.mistakes else s.mistakes + 1,
                       isComplete := isComplete,
                       history := s.history + [newBoard]);
        Placement(next, if isComplete then Completed(Score(s.timeLeft))
                        else if isCorrect then Correct else Incorrect)
  }

  /** Clicking a cell selects it; the record itself puts no guard on selection. */
  function SelectCell(s: SudokuState, r: int, c: int): (t: SudokuState)
    requires ValidState(s) && InRange(r, c)
    ensures ValidState(t)
  {
    s.(selectedCell := Some(Cell(r, c)))
  }

  /** The pause action flips the flag, with no guard on finished or lost games. */
  function TogglePause(s: SudokuState): (t: SudokuState)
    requires ValidState(s)
    ensures ValidState(t)
    ensures t.isPaused != s.isPaused && t == s.(isPaused := t.isPaused)
  {
    s.(isPaused := !s.isPaused)
  }

  /** The undo action: drop the newest snapshot and show the one before it, if there is one. */
  function Undo(s: SudokuState): (t: SudokuState)
    requires ValidState(s)
    ensures ValidState(t)
  {
    if |s.history| > 1 then
      var h := s.history[..|s.history| - 1];
      s.(board := h[|h| - 1], history := h)
    else s
  }

  /** The guard of erase and reveal: a cell is selected and it is not a clue. */
  predicate SelectionEditable(s: SudokuState)
    requires ValidState(s)
  {
    s.selectedCell.Some? && s.initialBoard[s.selectedCell.value.row][s.selectedCell.value.col] == Empty
  }

  /** The erase action: empty the selected non-clue cell and push the new board, even if it was empty already. */
  function Erase(s: SudokuState): (t: SudokuState)
    requires ValidState(s)
    ensures ValidState(t)
  {
    if SelectionEditable(s) then
      var nb := SetCell(s.board, s.selectedCell.value.row, s.selectedCell.value.col, Empty);
      s.(board := nb, history := s.history + [nb])
    else s
  }

  /**
   * The reveal action once its cost is paid: press the solution's digit of
   * the selected non-clue cell through updateCell, in whatever mode the
   * notes toggle is in.
   */
  function Reveal(s: SudokuState, notesMode: bool): (p: Placement)
    requires ValidState(s)
    ensures ValidState(p.next)
  {
    if SelectionEditable(s) then
      Place(s, s.solution[s.selectedCell.value.row][s.selectedCell.value.col], notesMode)
    else Placement(s, Ignored)
  }

  function Max(a: int, b: int): int
  {
    if a >= b then a else b
  }

  /** Whether the one-second interval is armed. */
  predicate TimerRunning(s: SudokuState, isLevelChanging: bool)
  {
    !(s.isPaused || s.isComplete || s.timeLeft <= 0 || isLevelChanging)
  }

  /** One second of the countdown interval. */
  function Tick(s: SudokuState, isLevelChanging: bool): (t: SudokuState)
    requires ValidState(s)
    ensures ValidState(t)
  {
    if !TimerRunning(s, isLevelChanging) then s
    else s.(timer := s.timer + 1, timeLeft := Max(0, s.timeLeft - 1))
  }
}
