/**
 * The snakes-and-ladders board (class `Tablero`): a serpentine grid of numbered cells,
 * one win cell, loss cells and shortcuts (ladders and chutes). Once built, a board is
 * never changed, so it is a value; its constructor, which validates its arguments and
 * may fail, is the method `NewBoard`.
 */
module BoardModel {
  import opened Wrappers

  /** Why the constructor refuses its arguments (the program raises ValueError). */
  datatype BoardError =
    | TooSmall                              // fewer than 2 rows or 2 columns
    | OutOfBounds(cell: int, limit: int)    // first cell outside [1, limit]

  /** A constructed board; the field names follow the attributes the constructor sets. */
  datatype Board = Board(
    rows: int,                       // nro_filas
    cols: int,                       // nro_columnas
    maxCell: int,                    // celda_max
    winCell: int,                    // celda_victoria
    lossCells: seq<int>,             // celdas_perdida, with the win cell removed
    ladders: seq<(int, int)>,        // celdas_escalera, as given
    chutes: seq<(int, int)>,         // celdas_rodadero, as given
    shortcuts: map<int, int>,        // escaleras_y_rodaderos
    terminalRewards: map<int, real>  // reward_terminales
  )
  {
    predicate InBounds(c: int) {
      1 <= c <= maxCell
    }

    /** What every board that `NewBoard` returns satisfies. */
    ghost predicate Valid() {
      && rows >= 2 && cols >= 2 && maxCell == rows * cols
      && InBounds(winCell)
      && (forall i :: 0 <= i < |lossCells| ==> InBounds(lossCells[i]))
      && (forall i :: 0 <= i < |ladders| ==> InBounds(ladders[i].0) && InBounds(ladders[i].1))
      && (forall i :: 0 <= i < |chutes| ==> InBounds(chutes[i].0) && InBounds(chutes[i].1))
      && winCell !in lossCells
      && shortcuts == Shortcuts(ladders, chutes)
      && terminalRewards == TerminalRewards(winCell, lossCells)
    }
  }

  const WinReward: real := 50.0
  const LossReward: real := -50.0
  /** The reward of entering any non-terminal cell. */
  const StepReward: real := -1.0

  // ---------------------------------------------------------------------------
  // Construction
  // ---------------------------------------------------------------------------

  /** Both cells of every pair, pair by pair. */
  function Flatten(ps: seq<(int, int)>): (r: seq<int>)
    ensures |r| == 2 * |ps|
    ensures forall i :: 0 <= i < |ps| ==> r[2 * i] == ps[i].0 && r[2 * i + 1] == ps[i].1
  {
    if ps == [] then [] else [ps[0].0, ps[0].1] + Flatten(ps[1..])
  }

  /** The cells the constructor checks, in the order it checks them. */
  function CellsToValidate(win: int, losses: seq<int>, ladders: seq<(int, int)>, chutes: seq<(int, int)>): seq<int>
  {
    [win] + losses + Flatten(ladders) + Flatten(chutes)
  }

  /** The loss list without the win cell: `[c for c in losses if c != win]`. */
  function RemoveCell(s: seq<int>, x: int): (r: seq<int>)
    ensures forall c :: c in r <==> c in s && c != x
    ensures multiset(r) == multiset(s)[x := 0]
  {
    if s == [] then []
    else
      assert s == [s[0]] + s[1..];
      if s[0] == x then RemoveCell(s[1..], x)
      else [s[0]] + RemoveCell(s[1..], x)
  }

  /** `dict(ps)`: for a key listed more than once, the last pair wins. */
  function PairsToMap(ps: seq<(int, int)>): (m: map<int, int>)
    ensures m.Keys == set i | 0 <= i < |ps| :: ps[i].0
    ensures forall k :: k in m ==>
      exists i :: 0 <= i < |ps| && ps[i] == (k, m[k]) && forall j :: i < j < |ps| ==> ps[j].0 != k
  {
    if ps == [] then map[]
    else
      var last := ps[|ps| - 1];
      var m := PairsToMap(ps[..|ps| - 1]);
      assert forall j :: 0 <= j < |ps| - 1 ==> ps[..|ps| - 1][j] == ps[j];
      m[last.0 := last.1]
  }

  /** The entry cells of a list of shortcuts. */
  function Entries(ps: seq<(int, int)>): set<int> {
    set i | 0 <= i < |ps| :: ps[i].0
  }

  /**
   * `{**dict(ladders), **dict(chutes)}`: one map from entry to exit; where a ladder and a
   * chute share an entry, the chute's exit is kept.
   */
  function Shortcuts(ladders: seq<(int, int)>, chutes: seq<(int, int)>): (r: map<int, int>)
    ensures r.Keys == Entries(ladders) + Entries(chutes)
    ensures forall k :: k in Entries(chutes) ==> r[k] == PairsToMap(chutes)[k]
    ensures forall k :: k in Entries(ladders) && k !in Entries(chutes) ==> r[k] == PairsToMap(ladders)[k]
  {
    PairsToMap(ladders) + PairsToMap(chutes)
  }

  /**
   * `{win: 50.0, **{c: -50.0 for c in losses}}`: a later loss entry would override the win
   * entry, which is why the constructor removes the win cell from the losses first.
   */
  function TerminalRewards(win: int, losses: seq<int>): (r: map<int, real>)
    ensures r.Keys == {win} + set c | c in losses
    ensures forall c :: c in losses ==> r[c] == LossReward
    ensures win !in losses ==> r[win] == WinReward
  {
    map[win := WinReward] + map c | c in losses :: LossReward
  }

  /** The attributes the constructor assigns once validation has passed. */
  function Build(rows: int, cols: int, win: int, losses: seq<int>,
                 ladders: seq<(int, int)>, chutes: seq<(int, int)>): Board
  {
    var kept := RemoveCell(losses, win);
    Board(rows, cols, rows * cols, win, kept, ladders, chutes,
          Shortcuts(ladders, chutes), TerminalRewards(win, kept))
  }

  /**
   * The constructor: refuses fewer than 2 rows or columns, then checks every cell in
   * order and refuses the first one outside [1, rows * cols].
   */
  method NewBoard(rows: int, cols: int, win: int, losses: seq<int>,
                  ladders: seq<(int, int)>, chutes: seq<(int, int)>)
    returns (r: Result<Board, BoardError>)
    ensures r == Failure(TooSmall) <==> rows < 2 || cols < 2
    ensures r.Success? <==>
      rows >= 2 && cols >= 2 &&
      forall c :: c in CellsToValidate(win, losses, ladders, chutes) ==> 1 <= c <= rows * cols
    ensures r.Failure? && r.error.OutOfBounds? ==>
      var cells := CellsToValidate(win, losses, ladders, chutes);
      r.error.limit == rows * cols &&
      exists i :: 0 <= i < |cells| && cells[i] == r.error.cell && !(1 <= cells[i] <= rows * cols) &&
        forall j :: 0 <= j < i ==> 1 <= cells[j] <= rows * cols
    ensures r.Success? ==> r.value == Build(rows, cols, win, losses, ladders, chutes) && r.value.Valid()
  {
    if rows < 2 || cols < 2 {
      return Failure(TooSmall);
    }
    var maxCell := rows * cols;
    var cells := CellsToValidate(win, losses, ladders, chutes);
    for i := 0 to |cells|
      invariant forall j :: 0 <= j < i ==> 1 <= cells[j] <= maxCell
    {
      if !(1 <= cells[i] <= maxCell) {
        assert cells[i] in cells;
        return Failure(OutOfBounds(cells[i], maxCell));
      }
    }
    var b := Build(rows, cols, win, losses, ladders, chutes);
    BuildValid(rows, cols, win, losses, ladders, chutes);
    r := Success(b);
  }

  lemma BuildValid(rows: int, cols: int, win: int, losses: seq<int>,
                   ladders: seq<(int, int)>, chutes: seq<(int, int)>)
    requires rows >= 2 && cols >= 2
    requires forall i :: 0 <= i < |CellsToValidate(win, losses, ladders, chutes)| ==>
      1 <= CellsToValidate(win, losses, ladders, chutes)[i] <= rows * cols
    ensures Build(rows, cols, win, losses, ladders, chutes).Valid()
  {
    var limit := rows * cols;
    var fl, fc := Flatten(ladders), Flatten(chutes);
    var cells := CellsToValidate(win, losses, ladders, chutes);
    assert cells == [win] + losses + fl + fc;
    var n, m := |losses|, |fl|;
    assert cells[0] == win;
    forall k | 0 <= k < n ensures 1 <= losses[k] <= limit { assert cells[1 + k] == losses[k]; }
    forall k | 0 <= k < m ensures 1 <= fl[k] <= limit { assert cells[1 + n + k] == fl[k]; }
    forall k | 0 <= k < |fc| ensures 1 <= fc[k] <= limit { assert cells[1 + n + m + k] == fc[k]; }
    FlattenBounds(ladders, limit);
    FlattenBounds(chutes, limit);
    var kept := RemoveCell(losses, win);
    forall i | 0 <= i < |kept| ensures 1 <= kept[i] <= limit {
      assert kept[i] in losses;
    }
  }

  lemma FlattenBounds(ps: seq<(int, int)>, limit: int)
    requires forall k :: 0 <= k < |Flatten(ps)| ==> 1 <= Flatten(ps)[k] <= limit
    ensures forall i :: 0 <= i < |ps| ==> 1 <= ps[i].0 <= limit && 1 <= ps[i].1 <= limit
  {
    var f := Flatten(ps);
    forall i | 0 <= i < |ps|
      ensures 1 <= ps[i].0 <= limit && 1 <= ps[i].1 <= limit
    {
      assert f[2 * i] == ps[i].0 && f[2 * i + 1] == ps[i].1;
    }
  }

  // ---------------------------------------------------------------------------
  // Properties of the constructed fields
  // ---------------------------------------------------------------------------

  /** Removing a cell commutes with concatenation, so the kept cells stay in input order. */
  lemma {:induction false} RemoveCellAppend(a: seq<int>, b: seq<int>, x: int)
    ensures RemoveCell(a + b, x) == RemoveCell(a, x) + RemoveCell(b, x)
  {
    if a == [] {
      assert a + b == b;
    } else {
      assert (a + b)[1..] == a[1..] + b;
      RemoveCellAppend(a[1..], b, x);
    }
  }

  /** A list that does not hold the win cell is kept unchanged. */
  lemma {:induction false} RemoveAbsentCell(s: seq<int>, x: int)
    requires x !in s
    ensures RemoveCell(s, x) == s
  {
    if s != [] {
      RemoveAbsentCell(s[1..], x);
    }
  }

  /** The win cell keeps reward 50.0 even when the loss list given also holds it. */
  lemma WinRewardKept(win: int, losses: seq<int>)
    ensures TerminalRewards(win, RemoveCell(losses, win))[win] == WinReward
  {
  }

  // ---------------------------------------------------------------------------
  // Serpentine numbering (celda_a_coord, coord_a_celda)
  // ---------------------------------------------------------------------------

  /** `(-1) ** e`; for negative `e` the program computes the same value as a float. */
  function NegOnePow(e: int): (r: int)
    ensures r == 1 || r == -1
  {
    if e % 2 == 0 then 1 else -1
  }

  /**
   * `celda_a_coord(cell, centrar=False)`: the (column, row) of a cell. The column is always
   * one of the board's columns, and cells from 1 on lie in rows from 1 on.
   */
  function CellToCoord(cols: int, cell: int): (r: (int, int))
    requires cols > 0
    ensures 1 <= r.0 <= cols
    ensures cell >= 1 ==> r.1 >= 1
  {
    var row := (cell - 1) / cols + 1;
    var offset := (cell - 1) % cols;
    if row % 2 == 1 then (offset + 1, row) else (cols - offset, row)
  }

  /**
   * `celda_a_coord(cell, centrar=True)`: the centre of the cell's square. It lies strictly
   * inside the unit square whose upper corner is the integer coordinate, so truncating it
   * gives the 0-based column and row (how the plotting code indexes its grid).
   */
  function CellToCenter(cols: int, cell: int): (r: (real, real))
    requires cols > 0
    ensures var (col, row) := CellToCoord(cols, cell);
      && r.0 + 0.5 == col as real && r.1 + 0.5 == row as real
      && (col - 1) as real < r.0 < col as real && (row - 1) as real < r.1 < row as real
      && r.0.Floor == col - 1 && r.1.Floor == row - 1
  {
    var (col, row) := CellToCoord(cols, cell);
    (col as real - 0.5, row as real - 0.5)
  }

  /**
   * `coord_a_celda(col, row)`: the cell at a (column, row). Odd rows are numbered left to
   * right after the `row - 1` full rows below them; even rows right to left, ending at
   * `row * cols` in column 1.
   */
  function CoordToCell(cols: int, col: int, row: int): (r: int)
    ensures row % 2 == 1 ==> r == (row - 1) * cols + col
    ensures row % 2 == 0 ==> r == row * cols - col + 1
  {
    (row - row % 2) * cols + NegOnePow(row - 1) * (col - (row - 1) % 2)
  }

  /** Euclidean division by a positive divisor is determined by quotient and remainder. */
  lemma DivModUnique(a: int, d: int, q: int, r: int)
    requires d > 0 && 0 <= r < d && a == q * d + r
    ensures a / d == q && a % d == r
  {
    var q' := a / d;
    if q > q' {
      MulStep(q, q', d);
    } else if q < q' {
      MulStep(q', q, d);
    }
  }

  /** Multiplying by a non-negative number keeps a strict order apart by at least that number. */
  lemma MulStep(hi: int, lo: int, d: int)
    requires hi > lo && d >= 0
    ensures hi * d >= lo * d + d
  {
    MulNonneg(hi - lo - 1, d);
    assert (hi - lo - 1) * d == hi * d - lo * d - d;
  }

  /** Multiplying by a non-negative number keeps the order. */
  lemma MulMono(lo: int, hi: int, d: int)
    requires lo <= hi && d >= 0
    ensures lo * d <= hi * d
  {
    MulNonneg(hi - lo, d);
    assert (hi - lo) * d == hi * d - lo * d;
  }

  lemma MulNonneg(x: int, y: int)
    requires x >= 0 && y >= 0
    ensures x * y >= 0
  {
  }

  /** The row/offset decomposition both functions rely on. */
  lemma CellDecompose(cols: int, cell: int)
    requires cols > 0
    ensures cell - 1 == ((cell - 1) / cols) * cols + (cell - 1) % cols
    ensures 0 <= (cell - 1) % cols < cols
  {
  }

  /** A cell's coordinates lead back to it, for every cell number. */
  lemma CellCoordRoundTrip(cols: int, cell: int)
    requires cols > 0
    ensures var (col, row) := CellToCoord(cols, cell); CoordToCell(cols, col, row) == cell
  {
    var q, off := (cell - 1) / cols, (cell - 1) % cols;
    CellDecompose(cols, cell);
    var row := q + 1;
    if row % 2 == 1 {
      assert CoordToCell(cols, off + 1, row) == (row - 1) * cols + (off + 1);
    } else {
      assert CoordToCell(cols, cols - off, row) == row * cols - (cols - off - 1);
      assert row * cols == q * cols + cols;
    }
  }

  /** A coordinate inside the column range leads back to itself, in every row. */
  lemma CoordCellRoundTrip(cols: int, col: int, row: int)
    requires cols > 0 && 1 <= col <= cols
    ensures CellToCoord(cols, CoordToCell(cols, col, row)) == (col, row)
  {
    var cell := CoordToCell(cols, col, row);
    if row % 2 == 1 {
      assert cell == (row - 1) * cols + col;
      DivModUnique(cell - 1, cols, row - 1, col - 1);
    } else {
      assert cell == row * cols - (col - 1);
      assert cell - 1 == (row - 1) * cols + (cols - col);
      DivModUnique(cell - 1, cols, row - 1, cols - col);
    }
  }

  /** Every cell of the board lies in the grid's column and row ranges. */
  lemma CellToCoordInGrid(rows: int, cols: int, cell: int)
    requires cols > 0 && 1 <= cell <= rows * cols
    ensures var (col, row) := CellToCoord(cols, cell); 1 <= col <= cols && 1 <= row <= rows
  {
    var q := (cell - 1) / cols;
    CellDecompose(cols, cell);
    if q < 0 {
      MulMono(q, -1, cols);
    } else if q >= rows {
      MulMono(rows, q, cols);
    }
  }

  /** The centre of every board cell lies inside the plotted area (0, cols) x (0, rows). */
  lemma CenterInGrid(rows: int, cols: int, cell: int)
    requires cols > 0 && 1 <= cell <= rows * cols
    ensures var (x, y) := CellToCenter(cols, cell);
      0.0 < x < cols as real && 0.0 < y < rows as real
  {
    CellToCoordInGrid(rows, cols, cell);
  }

  /** Every grid coordinate names a cell of the board. */
  lemma CoordToCellInBoard(rows: int, cols: int, col: int, row: int)
    requires cols > 0 && 1 <= col <= cols && 1 <= row <= rows
    ensures 1 <= CoordToCell(cols, col, row) <= rows * cols
  {
    var cell := CoordToCell(cols, col, row);
    if row % 2 == 1 {
      assert cell == (row - 1) * cols + col;
    } else {
      assert cell - 1 == (row - 1) * cols + (cols - col);
    }
    MulNonneg(row - 1, cols);
    MulStep(rows, row - 1, cols);
  }

  /**
   * Boustrophedon layout: consecutive cells are neighbours on the grid. Along an odd row
   * the column grows, along an even row it shrinks, and the last cell of a row sits
   * directly below the first cell of the next.
   */
  lemma {:induction false} ConsecutiveCellsAdjacent(cols: int, cell: int)
    requires cols > 0
    ensures var (c1, r1) := CellToCoord(cols, cell);
      var (c2, r2) := CellToCoord(cols, cell + 1);
      if (cell - 1) % cols < cols - 1 then
        r2 == r1 && c2 == (if r1 % 2 == 1 then c1 + 1 else c1 - 1)
      else
        r2 == r1 + 1 && c2 == c1
  {
    var q, off := (cell - 1) / cols, (cell - 1) % cols;
    CellDecompose(cols, cell);
    if off < cols - 1 {
      DivModUnique(cell, cols, q, off + 1);
    } else {
      DivModUnique(cell, cols, q + 1, 0);
    }
  }

  // ---------------------------------------------------------------------------
  // The MDP: transition and reward
  // ---------------------------------------------------------------------------

  /** `transicion`: a shortcut entry moves to its exit whatever the action; otherwise clamp. */
  function Transition(b: Board, state: int, action: int): int {
    if state in b.shortcuts then b.shortcuts[state]
    else Max(1, Min(state + action, b.maxCell))
  }

  function Min(x: int, y: int): int { if x <= y then x else y }
  function Max(x: int, y: int): int { if x >= y then x else y }

  /** `reward`: the terminal reward of the cell entered, -1 for any other cell. */
  function Reward(b: Board, next: int): real {
    if next in b.terminalRewards then b.terminalRewards[next] else StepReward
  }

  /** On a valid board every transition, from any state, lands on a board cell. */
  lemma TransitionInBoard(b: Board, state: int, action: int)
    requires b.Valid()
    ensures 1 <= Transition(b, state, action) <= b.maxCell
  {
    if state in b.shortcuts {
      var exit := b.shortcuts[state];
      if state in Entries(b.chutes) {
        var i :| 0 <= i < |b.chutes| && b.chutes[i] == (state, exit)
          && forall j :: i < j < |b.chutes| ==> b.chutes[j].0 != state;
        assert b.InBounds(b.chutes[i].1);
      } else {
        var i :| 0 <= i < |b.ladders| && b.ladders[i] == (state, exit)
          && forall j :: i < j < |b.ladders| ==> b.ladders[j].0 != state;
        assert b.InBounds(b.ladders[i].1);
      }
    }
  }

  /** The action is ignored at a shortcut entry, and otherwise only moves within the board. */
  lemma TransitionCases(b: Board, state: int, action: int)
    requires b.Valid()
    ensures state in b.shortcuts ==> Transition(b, state, action) == b.shortcuts[state]
    ensures state !in b.shortcuts && 1 <= state + action <= b.maxCell ==>
      Transition(b, state, action) == state + action
    ensures state !in b.shortcuts && state + action < 1 ==> Transition(b, state, action) == 1
    ensures state !in b.shortcuts && state + action > b.maxCell ==> Transition(b, state, action) == b.maxCell
  {
  }

  /** On a valid board the reward is 50.0 exactly at the win cell, -50.0 exactly at a loss cell, -1 elsewhere. */
  lemma RewardCases(b: Board, next: int)
    requires b.Valid()
    ensures Reward(b, next) == (if next == b.winCell then WinReward
                                else if next in b.lossCells then LossReward
                                else StepReward)
  {
  }
}
