/**
 * What the session transforms promise, one action at a time and over a
 * whole sequence of player and timer inputs.
 */
module SessionLaws {
  import opened Grid
  import opened Session

  /**
   * A digit press changes nothing exactly when updateCell returns early or
   * the digit is already on the board at the selected cell.
   */
  lemma PlaceNoOpIff(s: SudokuState, num: int, notesMode: bool)
    requires ValidState(s) && IsDigit(num)
    ensures Place(s, num, notesMode).next == s <==>
      || Locked(s)
      || (!notesMode && s.board[s.selectedCell.value.row][s.selectedCell.value.col] == num)
    ensures Locked(s) ==> Place(s, num, notesMode).outcome == Ignored
    ensures Place(s, num, notesMode).outcome == Ignored <==> Place(s, num, notesMode).next == s
  {
  }

  /** In notes mode a press flips one digit of one note set and touches nothing else. */
  lemma PlaceNote(s: SudokuState, num: int)
    requires ValidState(s) && IsDigit(num) && !Locked(s)
    ensures var p := Place(s, num, true);
      var r, c := s.selectedCell.value.row, s.selectedCell.value.col;
      && p.outcome == Noted
      && (num in p.next.notes[r][c] <==> num !in s.notes[r][c])
      && (forall x :: x != num ==> (x in p.next.notes[r][c] <==> x in s.notes[r][c]))
      && (forall i, j :: 0 <= i < Size && 0 <= j < Size && (i != r || j != c) ==>
            p.next.notes[i][j] == s.notes[i][j])
      && p.next == s.(notes := p.next.notes)
  {
  }

  /**
   * A committed placement writes one cell, counts a mistake exactly when the
   * digit is wrong, pushes the new board, leaves the notes alone, and
   * completes the puzzle exactly when the board now equals the solution,
   * scoring 100 points plus two per second left.
   */
  lemma PlaceCommit(s: SudokuState, num: int)
    requires ValidState(s) && IsDigit(num) && !Locked(s)
    requires s.board[s.selectedCell.value.row][s.selectedCell.value.col] != num
    ensures var p := Place(s, num, false);
      var t := p.next;
      var r, c := s.selectedCell.value.row, s.selectedCell.value.col;
      && t.board[r][c] == num
      && (forall i, j :: 0 <= i < Size && 0 <= j < Size && (i != r || j != c) ==>
            t.board[i][j] == s.board[i][j])
      && t.mistakes == (if num == s.solution[r][c] then s.mistakes else s.mistakes + 1)
      && t.history == s.history + [t.board]
      && (t.isComplete <==> t.board == s.solution)
      && p.outcome == (if t.isComplete then Completed(100 + 2 * s.timeLeft)
                       else if num == s.solution[r][c] then Correct else Incorrect)
      && t == s.(board := t.board, mistakes := t.mistakes, isComplete := t.isComplete,
                 history := t.history)
  {
    var t := Place(s, num, false).next;
    SolvedIsEquality(t.board, s.solution);
  }

  /** After a completing press every further press is ignored: completion fires once. */
  lemma CompletionIsFinal(s: SudokuState, num: int, notesMode: bool, num2: int, notesMode2: bool)
    requires ValidState(s) && IsDigit(num) && IsDigit(num2)
    requires Place(s, num, notesMode).outcome.Completed?
    ensures var t := Place(s, num, notesMode).next;
      t.isComplete && Place(t, num2, notesMode2) == Placement(t, Ignored)
  {
  }

  /** Undo pops one snapshot and shows the previous one; mistakes and completion stay. */
  lemma UndoLaw(s: SudokuState)
    requires ValidState(s)
    ensures |s.history| == 1 ==> Undo(s) == s
    ensures |s.history| > 1 ==>
      && Undo(s).history == s.history[..|s.history| - 1]
      && Undo(s).board == s.history[|s.history| - 2]
      && Undo(s) == s.(board := Undo(s).board, history := Undo(s).history)
  {
  }

  /** Undo right after a committed placement restores the board and history, not the mistake count. */
  lemma UndoAfterPlace(s: SudokuState, num: int)
    requires ValidState(s) && IsDigit(num) && !Locked(s)
    requires s.board[s.selectedCell.value.row][s.selectedCell.value.col] != num
    ensures var t := Place(s, num, false).next;
      && Undo(t).board == s.board
      && Undo(t).history == s.history
      && Undo(t).mistakes == t.mistakes
      && Undo(t).isComplete == t.isComplete
  {
  }

  /** Undo right after an erase restores the board and history. */
  lemma UndoAfterErase(s: SudokuState)
    requires ValidState(s) && SelectionEditable(s)
    ensures Undo(Erase(s)).board == s.board && Undo(Erase(s)).history == s.history
  {
  }

  /**
   * In a valid record the game is over exactly when the mistake count has
   * reached its cap of 3 or the countdown has reached 0, and then no digit
   * press changes anything.
   */
  lemma GameOverExactly(s: SudokuState, num: int, notesMode: bool)
    requires ValidState(s) && IsDigit(num)
    ensures IsGameOver(s) <==> s.mistakes == 3 || s.timeLeft == 0
    ensures IsGameOver(s) ==> Place(s, num, notesMode) == Placement(s, Ignored)
  {
  }

  /** Erase empties the selected non-clue cell and pushes a snapshot; otherwise it does nothing. */
  lemma EraseLaw(s: SudokuState)
    requires ValidState(s)
    ensures SelectionEditable(s) ==>
      var t := Erase(s);
      var r, c := s.selectedCell.value.row, s.selectedCell.value.col;
      && t.board[r][c] == Empty
      && (forall i, j :: 0 <= i < Size && 0 <= j < Size && (i != r || j != c) ==>
            t.board[i][j] == s.board[i][j])
      && t.history == s.history + [t.board]
      && t == s.(board := t.board, history := t.history)
    ensures !SelectionEditable(s) ==> Erase(s) == s
  {
  }

  /**
   * A paid reveal never counts a mistake outside notes mode. On an unlocked
   * session with an editable selection it leaves the solution's digit in the
   * cell; on a locked session it is ignored and the cell keeps its value.
   */
  lemma RevealIsCorrect(s: SudokuState)
    requires ValidState(s)
    ensures var p := Reveal(s, false);
      && p.next.mistakes == s.mistakes
      && (p.outcome.Correct? || p.outcome.Completed? || p.next == s)
      && (SelectionEditable(s) && !Locked(s) ==>
            p.next.board[s.selectedCell.value.row][s.selectedCell.value.col]
            == s.solution[s.selectedCell.value.row][s.selectedCell.value.col])
      && (Locked(s) ==> p == Placement(s, Ignored))
  {
  }

  /** A tick advances the clock by one second while the timer runs; the countdown stays at or above 0. */
  lemma TickLaw(s: SudokuState, isLevelChanging: bool)
    requires ValidState(s)
    ensures var t := Tick(s, isLevelChanging);
      && (TimerRunning(s, isLevelChanging) ==>
            t.timer == s.timer + 1 && t.timeLeft == s.timeLeft - 1
            && t == s.(timer := t.timer, timeLeft := t.timeLeft))
      && (!TimerRunning(s, isLevelChanging) ==> t == s)
      && 0 <= t.timeLeft <= s.timeLeft
  {
  }

  /** One input to a session: a click, a digit press, an action button, or a second of the timer. */
  datatype Input =
    | ClickCell(row: int, col: int)
    | Press(num: int, notesMode: bool)
    | PauseToggle
    | UndoMove
    | EraseCell
    | RevealCell(notesMode: bool)
    | Second(isLevelChanging: bool)

  predicate WellFormed(a: Input)
  {
    match a
    case ClickCell(r, c) => InRange(r, c)
    case Press(num, _) => IsDigit(num)
    case _ => true
  }

  function Step(s: SudokuState, a: Input): (t: SudokuState)
    requires ValidState(s) && WellFormed(a)
  {
    match a
    case ClickCell(r, c) => SelectCell(s, r, c)
    case Press(num, notesMode) => Place(s, num, notesMode).next
    case PauseToggle => TogglePause(s)
    case UndoMove => Undo(s)
    case EraseCell => Erase(s)
    case RevealCell(notesMode) => Reveal(s, notesMode).next
    case Second(isLevelChanging) => Tick(s, isLevelChanging)
  }

  /** The record after a sequence of inputs; every record on the way is valid. */
  function Run(s: SudokuState, inputs: seq<Input>): (t: SudokuState)
    requires ValidState(s)
    requires forall i :: 0 <= i < |inputs| ==> WellFormed(inputs[i])
    ensures ValidState(t)
    decreases |inputs|
  {
    if |inputs| == 0 then s else Run(Step(s, inputs[0]), inputs[1..])
  }

  /** What a session keeps between two records. */
  predicate Progresses(s: SudokuState, t: SudokuState)
  {
    && t.mistakes >= s.mistakes
    && t.timeLeft <= s.timeLeft
    && t.timer >= s.timer
    && t.initialBoard == s.initialBoard
    && t.solution == s.solution
    && t.level == s.level
    && (s.isComplete ==> t.isComplete)
  }

  /** Every single input keeps the session's monotone quantities and fixed data. */
  lemma StepProgresses(s: SudokuState, a: Input)
    requires ValidState(s) && WellFormed(a)
    ensures Progresses(s, Step(s, a))
    ensures Step(s, a).mistakes <= s.mistakes + 1
    ensures !a.UndoMove? ==> |Step(s, a).history| >= |s.history|
  {
  }

  /**
   * Over a whole session, mistakes never go down, the countdown never goes
   * up, the puzzle and solution never change, and a finished puzzle stays
   * finished (undo does not reopen it).
   */
  lemma {:induction false} RunProgresses(s: SudokuState, inputs: seq<Input>)
    requires ValidState(s)
    requires forall i :: 0 <= i < |inputs| ==> WellFormed(inputs[i])
    ensures Progresses(s, Run(s, inputs))
    decreases |inputs|
  {
    if |inputs| > 0 {
      var t := Step(s, inputs[0]);
      StepProgresses(s, inputs[0]);
      RunProgresses(t, inputs[1..]);
    }
  }

  /** The two terminal states never hold together: a finished puzzle is never also lost. */
  predicate TerminalExclusive(s: SudokuState)
  {
    s.isComplete ==> !IsGameOver(s)
  }

  /** Every single input keeps completion and game over apart. */
  lemma StepKeepsTerminalExclusive(s: SudokuState, a: Input)
    requires ValidState(s) && WellFormed(a) && TerminalExclusive(s)
    ensures TerminalExclusive(Step(s, a))
  {
  }

  /** Over a whole session, a puzzle that ends complete is never also over. */
  lemma {:induction false} RunKeepsTerminalExclusive(s: SudokuState, inputs: seq<Input>)
    requires ValidState(s) && TerminalExclusive(s)
    requires forall i :: 0 <= i < |inputs| ==> WellFormed(inputs[i])
    ensures TerminalExclusive(Run(s, inputs))
    decreases |inputs|
  {
    if |inputs| > 0 {
      StepKeepsTerminalExclusive(s, inputs[0]);
      RunKeepsTerminalExclusive(Step(s, inputs[0]), inputs[1..]);
    }
  }
}
