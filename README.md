# Snakes and ladders with a Q-learning agent, in Dafny

This project models the core of a small reinforcement-learning program. A tabular
Q-learning agent learns to walk a snakes-and-ladders board: a serpentine grid of numbered
cells with one win cell, some loss cells, ladders and chutes. The agent's two actions are
one cell back and one cell forward.

- `wrappers.dfy`, module `Wrappers`: the `Result` type used for the error paths.
- `board.dfy`, module `BoardModel`: the board (class `Tablero`). This covers the
  constructor's validation and the fields it derives: the loss list without the win cell,
  the shortcut map built from ladders and chutes, and the terminal rewards. It also covers
  the serpentine numbering in both directions (`celda_a_coord`, `coord_a_celda`), the
  transition function and the reward function. A board never changes once built, so it is
  a datatype, and the constructor that may refuse its arguments is the method `NewBoard`.
- `agent.dfy`, module `QAgent`: the agent (class `AgenteQLearning`). It is a class whose
  Q-table and position are fields, and it covers epsilon-greedy action choice, the
  temporal-difference update and the per-state values. The pure functions that specify
  these (`MaxQ`, `BestActions`, `TdValue`, `TdUpdate`, `StateValues`) sit beside the class.
- `simulation.dfy`, module `Simulation`: the training loop `run`. Each episode restarts
  on cell 1 and steps until it enters a terminal cell, and the loop keeps the last
  episode's trajectory.
- `boardfile.dfy`, module `BoardFile`: the board-file reader `leer_tablero` and the
  coordinate change `cambio_coord`. The file is given as its lines, already split into
  integers.

Modelling choices, each following the code:

- A board has a single win cell (`celda_victoria`).
- The terminal rewards are fixed at 50.0 for the win cell and -50.0 for a loss cell. Every
  other cell gives -1.
- The update takes the next state's best value over all actions, also when the next state
  is terminal. That value is not forced to 0.
- `Q_values` returns the mean of a state's action values, not their maximum.
- The reader stores the first group of four-integer records as chutes (`rodaderos`) and
  the second group as ladders.
- `helpers.py` imports `coord_a_celda` as a module-level function, but `tablero.py`
  defines it only as a method of `Tablero`. The model uses the method's formula with the
  reader's 10 columns.

## Model

| member | source | states |
|---|---|---|
| BoardModel.NewBoard | tablero.py:5-49 | Fails with TooSmall exactly when there are fewer than 2 rows or 2 columns. Succeeds exactly when every checked cell lies in [1, rows*cols]. Otherwise it reports the first cell out of range, in checking order, together with the limit. A success is the board the constructor builds, and that board satisfies `Valid` |
| BoardModel.CellsToValidate | tablero.py:18-21 | The cells the constructor checks, in its order: the win cell, the losses, then each ladder's and each chute's entry and exit. `NewBoard` and `FlattenBounds` state what passing the check means |
| BoardModel.Build | tablero.py:29-49 | The attributes assigned once validation passes. `BuildValid` proves they form a valid board |
| BoardModel.BuildValid | tablero.py:14-49 | Once validation passes, every stored cell lies in the board, the win cell is not among the losses, and the shortcut and reward maps are the derived ones |
| BoardModel.Flatten | tablero.py:19-20 | The flattened list has twice as many entries as there are pairs, holding each pair's entry and exit at positions 2i and 2i+1 |
| BoardModel.FlattenBounds | tablero.py:19-25 | If every flattened cell is in range, both cells of every pair are in range |
| BoardModel.RemoveCell | tablero.py:32 | The kept losses are exactly the listed cells other than the win cell, with every other cell's multiplicity unchanged |
| BoardModel.RemoveCellAppend | tablero.py:32 | Filtering commutes with concatenation, so the kept cells stay in input order |
| BoardModel.RemoveAbsentCell | tablero.py:32 | A loss list that does not contain the win cell is kept unchanged |
| BoardModel.PairsToMap | tablero.py:40-41 | `dict(pairs)` has exactly the entry cells as keys. Each key maps to the exit of the last pair with that entry |
| BoardModel.Shortcuts | tablero.py:39-42 | The shortcut keys are the ladder entries plus the chute entries. Where a ladder and a chute share an entry, the chute's exit wins; otherwise the ladder's exit is kept |
| BoardModel.TerminalRewards | tablero.py:46-49 | The keys are the win cell and the loss cells. Every loss cell maps to -50.0, and the win cell maps to 50.0 when it is not also listed as a loss |
| BoardModel.WinRewardKept | tablero.py:32-49 | Because the win cell is removed from the losses first, it always keeps reward 50.0 |
| BoardModel.CellToCoord | tablero.py:52-70 | With `centrar=False`, the column is always in [1, cols], and every cell from 1 on lies in a row from 1 on. `CellToCoordInGrid` and the two round-trip lemmas give the rest |
| BoardModel.CellToCenter | tablero.py:52-70 | The centred coordinate (the default `centrar=True`) lies strictly inside the unit square below the integer coordinate on both axes, half a unit from it. Truncating it gives the 0-based column and row, which is how the plotting code indexes its grid |
| BoardModel.CenterInGrid | tablero.py:57-68 | The centre of every board cell lies inside (0, cols) x (0, rows) |
| BoardModel.CoordToCell | tablero.py:72-85 | An odd row is numbered left to right after the `row - 1` full rows below it, so the cell is `(row-1)*cols + col`. An even row is numbered right to left and ends at `row*cols` in column 1, so the cell is `row*cols - col + 1` |
| BoardModel.CellCoordRoundTrip | tablero.py:52-85 | `coord_a_celda(celda_a_coord(n)) == n` for every cell number n |
| BoardModel.CoordCellRoundTrip | tablero.py:52-85 | `celda_a_coord(coord_a_celda(col, row)) == (col, row)` for every column in [1, cols] and every row |
| BoardModel.CellToCoordInGrid | tablero.py:56-65 | Every board cell has its column in [1, cols] and its row in [1, rows] |
| BoardModel.CoordToCellInBoard | tablero.py:76-85 | Every grid coordinate names a cell in [1, rows*cols] |
| BoardModel.ConsecutiveCellsAdjacent | tablero.py:56-65 | Cells n and n+1 are neighbours. Within a row the column goes up on odd rows and down on even rows; at a row's end, n+1 is directly above n |
| BoardModel.Transition | tablero.py:88-100 | The move from a state under an action. `TransitionInBoard` and `TransitionCases` carry its contract |
| BoardModel.Reward | tablero.py:103-114 | The reward for the cell entered. `RewardCases` carries its contract |
| BoardModel.TransitionInBoard | tablero.py:88-100 | On a valid board every transition lands on a board cell |
| BoardModel.TransitionCases | tablero.py:94-100 | A shortcut entry leads to its exit whatever the action. Any other move is kept when it stays on the board, and is clamped to 1 or to the last cell otherwise |
| BoardModel.RewardCases | tablero.py:103-114 | The reward is 50.0 at the win cell, -50.0 at a loss cell, and -1 at any other cell |
| QAgent.MaxQ | agente.py:32-33 | The result bounds every action's value (missing entries read as 0.0), and some action attains it |
| QAgent.BestActions | agente.py:36 | An action is among the best exactly when it is listed and its value equals the maximum |
| QAgent.TdValue | agente.py:54 | The new value is `(1-alpha)*old + alpha*target`. It equals the target when alpha is 1 and the old value when alpha is 0, and lies between the two for alpha in [0, 1] |
| QAgent.StepAffine | agente.py:54 | The step form `old + alpha * (target - old)` equals the weighted average `(1-alpha)*old + alpha*target` |
| QAgent.StepEnds | agente.py:54 | A step with alpha 1 reaches the target, and a step with alpha 0 keeps the old value |
| QAgent.StepBetween | agente.py:54 | For alpha in [0, 1] the stepped value lies between the old value and the target |
| QAgent.ScaledBetween | agente.py:54 | A fraction in [0, 1] of a difference lies between 0 and that difference |
| QAgent.TdUpdate | agente.py:43-54 | Only the key (state, action) is written. Its new value is the TD step toward `reward + gamma * max_a Q(next, a)`, and every other entry is unchanged |
| QAgent.TdUpdateExample | agente.py:43-54 | Worked case: reward -1, gamma 0.9, best next value 2.0 and alpha 0.5 move 0.0 to 0.4 |
| QAgent.WeightedSum | agente.py:59 | `sum(p * Q.get((s, a), 0) for a in acts)`. `WeightedSumFactor`, `MeanIsAverage` and `MeanAtMostMax` carry its contract |
| QAgent.WeightedSumFactor | agente.py:58-59 | The sum of `p * Q(s, a)` equals p times the sum of the values |
| QAgent.SumAtMostMax | agente.py:59 | The sum of the values is at most the number of actions times their maximum |
| QAgent.StateValues | agente.py:56-59 | The keys are the states that occur in the table. Each value is the mean of the state's action values, and it never exceeds their maximum |
| QAgent.MeanIsAverage | agente.py:58-59 | With weight `1/len(actions)`, the weighted sum is the mean |
| QAgent.MeanAtMostMax | agente.py:58-59 | A state's mean value is at most its best action value |
| QAgent.StateValueIsMean | agente.py:56-59 | Actions worth 0.0 and 2.0 give a state value of 1.0 while the maximum is 2.0, so the value is a mean, not a maximum |
| QAgent.QLearningAgent.constructor | agente.py:6-20 | The agent starts on cell 1 with actions [-1, 1], an empty table and the given alpha, gamma and epsilon. These default to 0.25, 0.9 and 0.25 |
| QAgent.QLearningAgent.ChooseAction | agente.py:22-37 | The chosen action is always one of the actions. With epsilon 0 it always has the state's greatest value |
| QAgent.QLearningAgent.UpdateQ | agente.py:43-54 | The new table is `TdUpdate` of the old one with the agent's alpha, gamma and actions |
| QAgent.QLearningAgent.QValues | agente.py:56-59 | For each state in the table, its value is the average of its two action values |
| QAgent.QLearningAgent.Step | simulacion.py:19 | The state reported is the old position, the agent moves to the reported next cell, and the action is one of the agent's actions |
| Simulation.IsTerminal | simulacion.py:24 | The end-of-episode test: the cell entered is the win cell or a loss cell |
| Simulation.Run | simulacion.py:5-31 | The agent is built with epsilon 0.1. Every finished episode starts on cell 1, ends on the win cell or a loss cell, and meets no terminal cell before that. The trajectory kept is the final episode's, or empty when there was none. A run stops early only when an episode spends its whole budget of `maxSteps` steps without entering a terminal cell, and those steps are returned |
| BoardFile.ChangeCoord | helpers.py:5-11 | An in-grid point maps into [1, cols] x [1, rows], and the input can be recovered from the output |
| BoardFile.FileCell | helpers.py:31-33 | The cell of a file point, `coord_a_celda(*cambio_coord((row, col)))` with 10 columns. `FileCellInBoard` carries its contract |
| BoardFile.FileCellInBoard | helpers.py:30-33 | Every point of the 10 x 10 grid names a cell in [1, 100], and that cell's coordinates are the point's Cartesian coordinates |
| BoardFile.ReadPairs | helpers.py:28-41 | A run of `count` four-integer records is read in order, or the first missing or malformed line is reported. Records whose values lie on the 10 x 10 grid give cells in [1, 100] |
| BoardFile.ReadCells | helpers.py:43-55 | A run of `count` two-integer records is read in order, or the first missing or malformed line is reported. Records whose values lie on the 10 x 10 grid give cells in [1, 100] |
| BoardFile.ReadShortcuts | helpers.py:27-41 | The chute records, then the ladder records, are read exactly when every one of those lines has four integers. Otherwise the first bad line is reported. On success the two lists have their header counts and hold the records' cells in file order |
| BoardFile.ReadTerminals | helpers.py:43-55 | After the shortcut records, the loss records, then the win records, are read exactly when every one of those lines has two integers. Otherwise the first bad line is reported. On success the two lists have their header counts and hold the records' cells in file order |
| BoardFile.ReadLayout | helpers.py:14-57 | A malformed header is reported as such. The read succeeds exactly when every counted record line has its width; otherwise the first bad line is reported. On success, each list has its header count and holds its records' cells in file order, and when every counted record line holds values on the 10 x 10 grid, every cell is in [1, 100] |

## Left out

- Plotting, animation and the console messages of `run` and `leer_tablero` are output only and are not modelled.
- Opening the board file is not modelled. The reader receives the file's lines already split into integers, and a line that is not integers is not modelled.
- The random draws of `escoger_accion` are nondeterministic choices. The model does not capture their distribution, only which results are possible.
- Q-values, rewards, alpha, gamma and epsilon are real numbers, so floating-point rounding is not modelled.
- `accionar` has an empty body and is not modelled.
- The attribute `espacio_estados` is never read by the core and is not modelled.
- QAgent.QLearningAgent.Step: `run` calls `agente.step()` (simulacion.py:19), but `agente.py` never defines `step`. The model fixes only what the loop relies on: the state reported is the old position, the agent moves to the next cell, and the action is one of its actions.
- Simulation.Run: the program's episode loop has no step limit and may never end. The model gives each episode a budget of `maxSteps` steps. When an episode exhausts it, the run stops and returns that episode's steps, none of which entered a terminal cell. The program would go on stepping at that point.
- `cambio_coord` is called with the default 10 columns and 10 rows, so the reader's cells are those of a 10-column board. The `nro_cols` parameter does not affect the result.
- `main.py`, `main2.py` and `visualizacion.py` are callers and are not part of this model.
