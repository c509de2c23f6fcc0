/**
 * 9x9 boards and pencil-note grids, and the element-wise transforms the game
 * applies to them (the nested `map`s and the `every` of App.tsx). A cell
 * holding `null` in the source holds `Empty` (0) here.
 */
module Grid {
  const Size: nat := 9
  const Empty: int := 0

  type Board = seq<seq<int>>
  type Notes = seq<seq<set<int>>>

  predicate InRange(r: int, c: int)
  {
    0 <= r < Size && 0 <= c < Size
  }

  predicate IsDigit(v: int)
  {
    1 <= v <= 9
  }

  predicate IsBoard(b: Board)
  {
    |b| == Size && forall r :: 0 <= r < Size ==> |b[r]| == Size
  }

  /** A solution grid: every cell holds a digit. */
  predicate IsSolution(sol: Board)
  {
    IsBoard(sol) && forall r, c :: 0 <= r < Size && 0 <= c < Size ==> IsDigit(sol[r][c])
  }

  /** A puzzle of `sol`: every cell is empty or holds the solution's digit. */
  predicate IsPuzzleOf(p: Board, sol: Board)
    requires IsSolution(sol)
  {
    IsBoard(p) && forall r, c :: 0 <= r < Size && 0 <= c < Size ==> p[r][c] == Empty || p[r][c] == sol[r][c]
  }

  /** A board the player can reach from `initial`: digits or empty cells, every clue of `initial` in place. */
  predicate Keeps(b: Board, initial: Board)
    requires IsBoard(initial)
  {
    && IsBoard(b)
    && forall r, c :: 0 <= r < Size && 0 <= c < Size ==>
         && (b[r][c] == Empty || IsDigit(b[r][c]))
         && (initial[r][c] != Empty ==> b[r][c] == initial[r][c])
  }

  /** The board with cell (r, c) replaced by `v`. */
  function SetCell(b: Board, r: int, c: int, v: int): (nb: Board)
    requires IsBoard(b) && InRange(r, c)
    ensures IsBoard(nb)
    ensures nb[r][c] == v
    ensures forall i, j :: 0 <= i < Size && 0 <= j < Size && (i != r || j != c) ==> nb[i][j] == b[i][j]
  {
    b[r := b[r][c := v]]
  }

  /** The completion test: every cell of `b` equals the cell of `sol`. */
  predicate Solved(b: Board, sol: Board)
    requires IsBoard(b) && IsBoard(sol)
  {
    forall r, c :: 0 <= r < Size && 0 <= c < Size ==> b[r][c] == sol[r][c]
  }

  /** On 9x9 boards the cell-wise test is exactly board equality. */
  lemma SolvedIsEquality(b: Board, sol: Board)
    requires IsBoard(b) && IsBoard(sol)
    ensures Solved(b, sol) <==> b == sol
  {
    if Solved(b, sol) {
      forall r | 0 <= r < Size
        ensures b[r] == sol[r]
      {
        assert forall c :: 0 <= c < Size ==> b[r][c] == sol[r][c];
      }
    }
  }

  predicate IsNotes(n: Notes)
  {
    |n| == Size && forall r :: 0 <= r < Size ==> |n[r]| == Size
  }

  /** A fresh 9x9 grid of empty note sets. */
  function EmptyNotes(): (n: Notes)
    ensures IsNotes(n)
    ensures forall r, c :: 0 <= r < Size && 0 <= c < Size ==> n[r][c] == {}
  {
    seq(Size, _ => seq(Size, _ => {}))
  }

  /** Flip the membership of `d` in the note set of cell (r, c). */
  function ToggleNote(n: Notes, r: int, c: int, d: int): (m: Notes)
    requires IsNotes(n) && InRange(r, c)
    ensures IsNotes(m)
    ensures d in m[r][c] <==> d !in n[r][c]
    ensures forall x :: x != d ==> (x in m[r][c] <==> x in n[r][c])
    ensures forall i, j :: 0 <= i < Size && 0 <= j < Size && (i != r || j != c) ==> m[i][j] == n[i][j]
  {
    var cell := n[r][c];
    n[r := n[r][c := if d in cell then cell - {d} else cell + {d}]]
  }
}
