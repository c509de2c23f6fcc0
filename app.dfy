/**
 * The game screen of App.tsx: the current session record plus the
 * component state the game logic reads and writes next to it (notes mode,
 * the pending level change, the completed-level list, the last award and
 * the player's credits and score).
 */
module App {
  import opened Wrappers
  import opened Grid
  import Levels
  import opened Session

  /** The fields of the player's profile that the game changes. */
  datatype Profile = Profile(credits: int, totalScore: int)

  const RevealCost: int := 10

  /** The level the NEXT LEVEL button moves to: the following id, wrapping from the last level to 1. */
  function NextLevelId(level: int): (next: int)
    ensures 0 <= level ==> 1 <= next <= Levels.TotalLevels
    ensures level == Levels.TotalLevels ==> next == 1
    ensures 0 <= level < Levels.TotalLevels ==> next == level + 1
  {
    if level + 1 > Levels.TotalLevels then 1 else level + 1
  }

  predicate NoDuplicates(xs: seq<int>)
  {
    forall i, j :: 0 <= i < j < |xs| ==> xs[i] != xs[j]
  }

  /** `[...new Set(xs)]`: the distinct elements of `xs`. */
  function Dedup(xs: seq<int>): (r: seq<int>)
    ensures NoDuplicates(r)
    ensures forall x :: x in r <==> x in xs
    decreases |xs|
  {
    if |xs| == 0 then []
    else
      var d := Dedup(xs[..|xs| - 1]);
      var last := xs[|xs| - 1];
      if last in d then d else d + [last]
  }

  /** A list without repeats is its own set-of-elements, in the same order. */
  lemma {:induction false} DedupOfDistinct(xs: seq<int>)
    requires NoDuplicates(xs)
    ensures Dedup(xs) == xs
    decreases |xs|
  {
    if |xs| > 0 {
      var init := xs[..|xs| - 1];
      assert NoDuplicates(init);
      DedupOfDistinct(init);
      assert xs[|xs| - 1] !in init;
      assert init + [xs[|xs| - 1]] == xs;
    }
  }

  /** Record a completed level in the progress list. */
  function MarkCompleted(prev: seq<int>, level: int): (r: seq<int>)
    ensures NoDuplicates(r)
    ensures forall x :: x in r <==> x in prev || x == level
  {
    Dedup(prev + [level])
  }

  /** Marking a level keeps the list free of repeats and adds the level once, at the end, if new. */
  lemma MarkCompletedLaw(prev: seq<int>, level: int)
    requires NoDuplicates(prev)
    ensures MarkCompleted(prev, level) == if level in prev then prev else prev + [level]
  {
    var xs := prev + [level];
    assert xs[..|xs| - 1] == prev;
    DedupOfDistinct(prev);
  }

  /** The award for a completed puzzle goes to the signed-in player, if any. */
  function AddPoints(p: Option<Profile>, points: int): (q: Option<Profile>)
    ensures q.Some? <==> p.Some?
    ensures q.Some? ==>
      q.value.credits == p.value.credits && q.value.totalScore == p.value.totalScore + points
  {
    match p
    case Some(pr) => Some(pr.(totalScore := pr.totalScore + points))
    case None => None
  }

  /**
   * The profile after a paid reveal whose press had outcome `o`, as the
   * source writes it: the press's award is added to the profile the action
   * started from, so it overwrites the deduction of the reveal cost.
   */
  function RevealProfileAsWritten(p: Profile, o: Outcome): Profile
  {
    var charged := p.(credits := p.credits - RevealCost);
    if o.Completed? then p.(totalScore := p.totalScore + o.points) else charged
  }

  /** The profile after a paid reveal: the cost is always deducted and any award added. */
  function RevealProfile(p: Profile, o: Outcome): (q: Profile)
    ensures q.credits == p.credits - RevealCost
    ensures q.totalScore == p.totalScore + (if o.Completed? then o.points else 0)
  {
    AddPoints(Some(p.(credits := p.credits - RevealCost)), if o.Completed? then o.points else 0).value
  }

  /** A reveal that completes the puzzle costs nothing as written, and the full cost once corrected. */
  lemma RevealRefundAsWritten(p: Profile, points: int)
    ensures RevealProfileAsWritten(p, Completed(points)).credits == p.credits
    ensures RevealProfile(p, Completed(points)).credits == p.credits - RevealCost
    ensures RevealProfileAsWritten(p, Completed(points)).totalScore
         == RevealProfile(p, Completed(points)).totalScore
  {
  }

  class Game {
    var state: SudokuState
    var notesMode: bool
    var isLevelChanging: bool
    /** Level ids of the scheduled level-change timeouts, oldest first. */
    var pendingLevels: seq<int>
    var completedLevels: seq<int>
    var lastGainedPoints: int
    var profile: Option<Profile>

    ghost predicate Valid()
      reads this
    {
      ValidState(state)
    }

    /** The first initLevel, for a signed-in or anonymous player with saved progress. */
    constructor (levelId: int, initial: Board, solution: Board,
                 player: Option<Profile>, progress: seq<int>)
      requires IsSolution(solution) && IsPuzzleOf(initial, solution)
      ensures Valid()
      ensures state == NewSession(levelId, initial, solution)
      ensures !notesMode && !isLevelChanging && pendingLevels == [] && lastGainedPoints == 0
      ensures profile == player && completedLevels == progress
    {
      state := NewSession(levelId, initial, solution);
      notesMode := false;
      isLevelChanging := false;
      pendingLevels := [];
      completedLevels := progress;
      lastGainedPoints := 0;
      profile := player;
    }

    /** initLevel: a new session around the puzzle generated for `levelId`; the last award is cleared. */
    method InitLevel(levelId: int, initial: Board, solution: Board)
      requires IsSolution(solution) && IsPuzzleOf(initial, solution)
      modifies this`state, this`lastGainedPoints
      ensures Valid()
      ensures state == NewSession(levelId, initial, solution) && lastGainedPoints == 0
    {
      state := NewSession(levelId, initial, solution);
      lastGainedPoints := 0;
    }

    /** transitionToLevel: mark a level change pending and schedule its timeout. */
    method TransitionToLevel(levelId: int)
      modifies this`isLevelChanging, this`pendingLevels
      ensures isLevelChanging && pendingLevels == old(pendingLevels) + [levelId]
    {
      isLevelChanging := true;
      pendingLevels := pendingLevels + [levelId];
    }

    /** The oldest scheduled timeout fires: start its level and clear the pending flag. */
    method FinishTransition(initial: Board, solution: Board)
      requires |pendingLevels| > 0
      requires IsSolution(solution) && IsPuzzleOf(initial, solution)
      modifies this`state, this`lastGainedPoints, this`isLevelChanging, this`pendingLevels
      ensures Valid()
      ensures state == NewSession(old(pendingLevels[0]), initial, solution)
      ensures lastGainedPoints == 0 && !isLevelChanging
      ensures pendingLevels == old(pendingLevels[1..])
    {
      var levelId := pendingLevels[0];
      pendingLevels := pendingLevels[1..];
      InitLevel(levelId, initial, solution);
      isLevelChanging := false;
    }

    /** The NEXT LEVEL button of the completion overlay. */
    method AdvanceLevel()
      modifies this`isLevelChanging, this`pendingLevels
      ensures isLevelChanging && pendingLevels == old(pendingLevels) + [NextLevelId(state.level)]
    {
      TransitionToLevel(NextLevelId(state.level));
    }

    /** One second of the countdown interval. */
    method Tick()
      requires Valid()
      modifies this`state
      ensures Valid()
      ensures state == Session.Tick(old(state), isLevelChanging)
      ensures state.timeLeft <= old(state.timeLeft) && state.mistakes == old(state.mistakes)
    {
      state := Session.Tick(state, isLevelChanging);
    }

    /** A click on cell (r, c) of the grid. */
    method SelectCell(r: int, c: int)
      requires Valid() && InRange(r, c)
      modifies this`state
      ensures Valid()
      ensures state == old(state).(selectedCell := Some(Cell(r, c)))
    {
      state := Session.SelectCell(state, r, c);
    }

    /** updateCell: a digit press, with the award, score and progress of a completing press. */
    method UpdateCell(num: int) returns (o: Outcome)
      requires Valid() && IsDigit(num)
      modifies this`state, this`lastGainedPoints, this`profile, this`completedLevels
      ensures Valid()
      ensures state == Place(old(state), num, notesMode).next
      ensures o == Place(old(state), num, notesMode).outcome
      ensures state.mistakes >= old(state.mistakes)
      ensures o.Completed? ==>
        && lastGainedPoints == o.points
        && profile == AddPoints(old(profile), o.points)
        && completedLevels == MarkCompleted(old(completedLevels), old(state.level))
      ensures !o.Completed? ==>
        && lastGainedPoints == old(lastGainedPoints)
        && profile == old(profile)
        && completedLevels == old(completedLevels)
    {
      var p := Place(state, num, notesMode);
      if p.outcome.Completed? {
        lastGainedPoints := p.outcome.points;
        profile := AddPoints(profile, p.outcome.points);
        completedLevels := MarkCompleted(completedLevels, state.level);
      }
      state := p.next;
      o := p.outcome;
    }

    /** The notes button; ignored during a level change like every action button. */
    method ToggleNotesMode()
      modifies this`notesMode
      ensures notesMode == if old(isLevelChanging) then old(notesMode) else !old(notesMode)
    {
      if !isLevelChanging {
        notesMode := !notesMode;
      }
    }

    /** The pause button. */
    method Pause()
      requires Valid()
      modifies this`state
      ensures Valid()
      ensures state == if old(isLevelChanging) then old(state) else TogglePause(old(state))
    {
      if !isLevelChanging {
        state := TogglePause(state);
      }
    }

    /** The undo button. */
    method Undo()
      requires Valid()
      modifies this`state
      ensures Valid()
      ensures state == if old(isLevelChanging) then old(state) else Session.Undo(old(state))
      ensures state.mistakes == old(state.mistakes) && state.isComplete == old(state.isComplete)
    {
      if !isLevelChanging {
        state := Session.Undo(state);
      }
    }

    /** The erase button. */
    method Erase()
      requires Valid()
      modifies this`state
      ensures Valid()
      ensures state == if old(isLevelChanging) then old(state) else Session.Erase(old(state))
      ensures state.mistakes == old(state.mistakes)
    {
      if !isLevelChanging {
        state := Session.Erase(state);
      }
    }

    /** The reset button: restart the current level. */
    method Reset()
      modifies this`isLevelChanging, this`pendingLevels
      ensures old(isLevelChanging) ==> pendingLevels == old(pendingLevels) && isLevelChanging
      ensures !old(isLevelChanging) ==>
        isLevelChanging && pendingLevels == old(pendingLevels) + [state.level]
    {
      if !isLevelChanging {
        TransitionToLevel(state.level);
      }
    }

    /**
     * The reveal button: refused without a profile holding at least the
     * cost; otherwise, on a selected non-clue cell, the cost is deducted and
     * the solution's digit is pressed, even if the press is then ignored.
     */
    method Reveal() returns (denied: bool, o: Outcome)
      requires Valid()
      modifies this`state, this`lastGainedPoints, this`profile, this`completedLevels
      ensures Valid()
      ensures denied <==>
        !old(isLevelChanging) && (old(profile).None? || old(profile).value.credits < RevealCost)
      ensures var paid := !old(isLevelChanging) && !denied && SelectionEditable(old(state));
        && (paid ==>
              && state == Session.Reveal(old(state), notesMode).next
              && o == Session.Reveal(old(state), notesMode).outcome
              && profile == Some(RevealProfile(old(profile).value, o)))
        && (!paid ==> state == old(state) && profile == old(profile) && o == Ignored)
      ensures o.Completed? ==>
        lastGainedPoints == o.points && completedLevels == MarkCompleted(old(completedLevels), old(state.level))
      ensures !o.Completed? ==>
        lastGainedPoints == old(lastGainedPoints) && completedLevels == old(completedLevels)
    {
      denied, o := false, Ignored;
      if isLevelChanging {
        return;
      }
      if profile.None? || profile.value.credits < RevealCost {
        denied := true;
        return;
      }
      if SelectionEditable(state) {
        profile := Some(profile.value.(credits := profile.value.credits - RevealCost));
        o := UpdateCell(state.solution[state.selectedCell.value.row][state.selectedCell.value.col]);
      }
    }
  }
}
