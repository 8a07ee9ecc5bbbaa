# Recursive Constraint Demotion, modelled in Dafny

This project models the ranking core of an Optimality Theory tool. The tool
reads a tableau and ranks its constraints by Recursive Constraint Demotion
(RCD). The model follows the `RCD` function of `RCD.py`, with the cell
conventions it depends on and the driver that calls it.

The tableau is a grid of strings.

- Row 0 is the header. From column 2 on it names the constraints.
- Every other row has a name in column 0 and a winner flag in column 1. The
  flag is `1` for the optimal candidate.
- A row whose name holds a slash is an input form. It opens a competition
  and does not compete itself.
- A constraint cell counts one violation per `*`. An empty field of the file
  reads as `-`, which counts zero.

One call of `RCD` does the following.

1. It takes the column-wise maximum of the violations of the competing
   winners, and the same for the competing losers.
2. If no competing loser is left, it appends all remaining constraints as
   the last stratum and stops.
3. Otherwise it ranks every constraint whose loser maximum exceeds its
   winner maximum. If there is none, it raises an error.
4. It appends those constraints, in column order, to the running order
   `ORDER`.
5. It deletes every row that has a cell ending in `*` under a ranked
   constraint, and then deletes the ranked columns.
6. A loop over the remaining candidate rows prunes lone leftovers: a row
   squeezed between two input rows, or last and right after one, goes
   together with the row before it.
7. It calls itself on what is left.

## How the model is organised

- `cells.dfy` (module `Cells`): counting marks, the `-` placeholder, the
  trailing-mark test, and the slash test.
- `positions.dfy` (module `Positions`): deleting a set of positions from a
  sequence. `Keep` is what stays and `Pick` is what is deleted. Both keep
  the original order. This models `np.delete` on rows and columns and the
  column selection `data[0, loser_constraints+2]`.
- `tableau.dfy` (module `Tableau`): rows and the grid, loading from the
  file's fields, the competitor, winner and loser filters, and the two
  violation profiles.
- `demotion.dfy` (module `Demotion`):
  - the selection of ranked columns;
  - the deletion of explained rows;
  - the pruning loop, as the method `PruneIndices`;
  - one whole call, as the pure function `Step`.
- `driver.dfy` (module `Driver`):
  - a whole run as the pure function `Run`;
  - the class `Ranking`, whose field `order` plays the shared list `ORDER`
    and whose method `Rcd` is the recursive procedure that appends to it;
  - the top-level call `RankTableau`.

  `Rcd` is proved equal to `Run`. So everything proved about `Run` holds of
  what `Rcd` leaves in `order`.
- `worked.dfy` (module `Worked`): a concrete tableau with two competitions,
  worked through a whole run.

### The header row

The model follows the code on the header row. The code handles the header
in three places.

- The competitor filter (`RCD.py:49`) keeps the header unless its first
  cell holds a slash. A header with flag `1` competes as a winner, and any
  other header competes as a loser. Its constraint cells are the constraint
  names, and they are counted like any other cell (`RCD.py:52`). So a name
  that holds a `*` counts as a violation of the header row.
  `Worked.PhantomMark` shows a constraint named `*Coda` that is ranked only
  because of the mark in its own name.
- The explained-row test (`RCD.py:84`) scans the header as well.
- Pruning can delete the header. The candidate names `candidates` leave
  the header out (`RCD.py:93`), but the positions the loop records,
  `i` and `i+1` (`RCD.py:96`, `RCD.py:98`), number the rows of `new_data`,
  whose row 0 is the header. So a lone leftover at candidate row `i` takes
  `new_data` rows `i` and `i+1` with it: the leftover and the row before it.
  For `i = 0` that row before it is the header. At `i = 0` the test itself
  looks at `candidates[-1]`, the last candidate row, and the model's
  `Demotion.Squeezed` does the same.

The explained-row test and pruning can each delete the header. The code
then goes on with a data row in its place. The model stops instead, with the status `HeaderGone`, after
recording that step's stratum.

Another consequence is shown on the worked tableau. The last pruning
deletes every candidate row. What the next call finds then depends only on
the header:

- **Competing header flagged `1`:** the header is a winner and nothing is a
  loser, so the run ends with the last stratum.
- **Competing header flagged otherwise:** the header is a loser and there
  is no winner. The maximum over no winners fails, and the model reports
  `NoWinner`.
- **Header whose first cell holds a slash:** nothing competes, and the run
  again ends with `NoWinner`. The code fails earlier here, at `RCD.py:55`,
  before the winner maximum.

`Worked.HeaderDecides` proves all three cases.

The general consequence is that a header which competes as a loser (its
first cell holds no slash and its flag is not `1`) stays a competing loser
at every step until a step deletes it. In the model, which stops with
`HeaderGone` at that point, no run on such a tableau completes;
`Driver.OrdinaryHeaderNeverFinal` proves this for every tableau. The code
goes on after the deletion with a data row as its header, so it can still
end at `RCD.py:65`.

### Errors

`Error.NoWinner` stands for two failures of the code when no competing row
is a winner:

- some rows compete but none is flagged `1`: the winner index `w_idx` is
  then empty, `t[w_idx]` is still two-dimensional, and `np.max` over no
  rows fails in the `else` branch at `RCD.py:59`;
- nothing competes at all: `df` is empty and `df[:,1]` already fails at
  `RCD.py:55`.

Both come before the loser test at `RCD.py:65`, so the model checks
`NoWinner` first.

`Error.Unrankable` is the `ValueError` at `RCD.py:79`.

A failing step appends nothing to the order.

### Where the code differs from textbook RCD

The model follows the code in each case.

- The code compares the maximum over all winners with the maximum over all
  losers. It does not compare winner-loser pairs within each competition.
- The code has no markedness-over-faithfulness tie-break.
- The code ends successfully when no competing loser is left. It does not
  end just because no candidate row is left. The header row then decides,
  as described above: a competing header flagged `1` completes the run, and
  any other header makes it fail.
- A competition with no winner is not singled out. It takes part in the
  global maxima like every other, and only a grid with no winner at all
  fails.

## Model

| member | source | states |
|---|---|---|
| `Cells.CountStars` | RCD.py:52 | a cell's count is zero exactly when it holds no `*`, and never exceeds its length |
| `Cells.CountStarsAppend` | RCD.py:52 | counting marks is additive over concatenation |
| `Cells.Normalize` | RCD.py:31 | an empty field becomes the placeholder `-`, any other field is kept, the cell is never empty, and the mark count is unchanged, so the placeholder counts zero |
| `Cells.TrailingStarCounted` | RCD.py:84 | a cell that passes the explained test carries at least one counted violation, one more than its prefix |
| `Cells.MarkNotLast` | RCD.py:84 | the converse fails: `*-` carries a violation but is not explained, so the test looks only at the last character |
| `Cells.EndsWithStar` | RCD.py:84 | the explained test on one cell; a cell that passes it carries at least one counted violation |
| `Cells.IsInput` | RCD.py:49 | no ensures: the slash test on a row's name, used by the competitor filter and by pruning |
| `Tableau.NormalizeFields` | RCD.py:31 | every field is replaced by its normalised cell, position by position, with the same number of marks |
| `Tableau.LoadRow` | RCD.py:30-31 | a row read from fields keeps one cell per field past column 1 with its mark count, and keeps its slash test and its winner flag |
| `Tableau.FromTable` | RCD.py:40-44 | the header comes from line 0 and its cells from column 2 on name the constraints; every other line becomes a row as wide as the header |
| `Tableau.Competitors` | RCD.py:49 | a row, the header included, competes exactly when its name has no slash |
| `Tableau.Winners` | RCD.py:55 | exactly the rows flagged `1` |
| `Tableau.Losers` | RCD.py:62 | exactly the rows not flagged `1` |
| `Tableau.IsWinner` | RCD.py:55 | no ensures: the `df[:,1] == '1'` test on column 1 of a row |
| `Tableau.WinnerRows` | RCD.py:55-59 | no ensures: the competing rows, the header included, flagged `1`, which `t[w_idx]` selects; `Tableau.Competitors`, `Tableau.Winners` and `Tableau.WinnerRowsNonEmpty` state what they are |
| `Tableau.LoserRows` | RCD.py:62 | no ensures: the competing rows, the header included, that `np.delete(t, w_idx, axis=0)` leaves; `Tableau.Competitors`, `Tableau.Losers` and `Tableau.WinnerRowsNonEmpty` state what they are |
| `Tableau.CompetitorsAppend` | RCD.py:49 | the competitor filter works row by row, so it keeps the relative order of rows |
| `Tableau.WinnerRowsNonEmpty` | RCD.py:55-65 | there are competing winners (losers) exactly when some non-input row is (is not) flagged `1` |
| `Tableau.ColumnMax` | RCD.py:58-68 | the column maximum bounds every row's count in that column and is attained by some row, or is 0 over no rows |
| `Tableau.Profile` | RCD.py:58-68 | the profile has one entry per column; each entry bounds every row's count in its column and is attained by some row, or is 0 over no rows |
| `Tableau.WinnerProfile` | RCD.py:55-59 | one entry per constraint; no competing winner has more marks than the entry, and when some row wins, one winner has exactly as many |
| `Tableau.LoserProfile` | RCD.py:62-68 | one entry per constraint; no competing loser has more marks than the entry, and when some row loses, one loser has exactly as many |
| `Tableau.InputRowInvisible` | RCD.py:49-68 | inserting an input row anywhere changes neither the winner nor the loser profile |
| `Demotion.Selected` | RCD.py:72-75 | the positive columns of the comparative tableau; every selected position is a column of the profiles |
| `Demotion.Ranked` | RCD.py:72-75 | every ranked position is a constraint column of the grid; its meaning is `Demotion.RankedMeaning` |
| `Demotion.RankedMeaning` | RCD.py:72-75 | a constraint is ranked exactly when some competing loser has more marks on it than every competing winner |
| `Demotion.Explained` | RCD.py:84-85 | no ensures: a row is explained when one of its cells under a ranked constraint ends with `*` |
| `Demotion.Survivors` | RCD.py:84-86 | a row survives exactly when no ranked cell of it ends with `*`, whether it is a winner, a loser or an input row |
| `Demotion.SurvivorsAppend` | RCD.py:86 | deleting explained rows keeps the remaining rows in their relative order |
| `Demotion.SurvivorsAll` | RCD.py:84-86 | when no row is explained, all rows stay, unchanged |
| `Demotion.SurvivorsShorter` | RCD.py:86 | deleting explained rows never adds rows |
| `Demotion.Trim` | RCD.py:87 | deleting columns keeps every row and every row name, so pruning sees the same names before and after it |
| `Demotion.Names` | RCD.py:93 | one name per row |
| `Demotion.Squeezed` | RCD.py:94-98 | no ensures: the loop's test for a lone leftover at candidate row i, the wrap-around at i = 0 included |
| `Demotion.Pruned` | RCD.py:92-98 | every pruned position is a candidate row or the header at -1 |
| `Demotion.PrunedHeader` | RCD.py:93-98 | pruning deletes the header exactly when the wrap-around at the first candidate row applies |
| `Demotion.PrunedKinds` | RCD.py:92-100 | pruning deletes only a lone leftover, or the input row just before one |
| `Demotion.CompetingNeighboursSurvive` | RCD.py:92-100 | a candidate next to another candidate is never pruned |
| `Demotion.PruneIndices` | RCD.py:92-98 | the loop collects exactly the positions of the lone leftovers and the rows before them |
| `Demotion.Reduce` | RCD.py:84-100 | no ensures: the grid the next call works on; its properties are `Demotion.ReduceFacts` |
| `Demotion.ReduceFacts` | RCD.py:84-100 | the reduced grid is rectangular, and each of its rows is an unexplained row of the old grid with the ranked cells taken out and no other cell changed |
| `Demotion.RankedShrinks` | RCD.py:75-87 | a non-empty ranked set gives a non-empty stratum and strictly fewer columns |
| `Demotion.Step` | RCD.py:49-100 | a final step ranks every remaining constraint, and any other ranking step ranks exactly the selected columns in column order; a step that goes on leaves exactly the other columns, in order, in a narrower well-formed grid |
| `Demotion.StepCases` | RCD.py:55-100 | the step fails with `NoWinner` exactly when nothing competing wins; it is final exactly when winners but no losers compete; it fails with `Unrankable` exactly when losers remain and nothing is ranked; it deletes the header exactly when a ranked header cell ends with `*` or pruning wraps around; otherwise its rows come from the old grid |
| `Driver.Run` | RCD.py:47-110 | the strata of a run hold each constraint at most as often as the header does, and every constraint when the run completes; every stratum but a final one is non-empty; there are at most as many strata as constraints plus one |
| `Driver.StrataFromHeader` | RCD.py:80 | every ranked name is a constraint of the starting header |
| `Driver.CompleteRanksAll` | RCD.py:65 | a completed run ranks every constraint |
| `Driver.StrataDisjoint` | RCD.py:80-87 | with distinct constraint names, no constraint is ranked twice, and no two strata share a name |
| `Driver.OrdinaryHeaderNeverFinal` | RCD.py:49-65 | when the header's first cell has no slash and its flag is not `1`, no step is final and no run completes |
| `Driver.Ranking.constructor` | RCD.py:45 | the order starts empty |
| `Driver.Ranking.Rcd` | RCD.py:47-110 | the procedure appends to `order` exactly the strata of `Run`, and returns its status |
| `Driver.Shrink` | RCD.py:84-100 | it reports the header's deletion exactly as the two header rules say, and otherwise gives the reduced grid |
| `Driver.RankTableau` | RCD.py:113 | the top-level call, from an empty order, yields the strata and the status of `Run` |
| `Positions.KeepMembers` | RCD.py:86-87 | deleting positions keeps exactly the elements at the other positions |
| `Positions.PickMembers` | RCD.py:80 | selecting the ranked positions yields exactly the elements at those positions |
| `Positions.Keep` | RCD.py:86-87 | deleting positions never lengthens a sequence |
| `Positions.Pick` | RCD.py:80 | the picked part and the kept part together are as long as the sequence |
| `Positions.KeepOrder` | RCD.py:86-87 | the kept elements come from distinct positions not deleted, in increasing order, and every position not deleted is kept |
| `Positions.PickOrder` | RCD.py:80 | the stratum's names come from distinct ranked positions, in increasing column order, and every ranked position is picked |
| `Positions.Partition` | RCD.py:80-87 | the stratum and the remaining columns together hold each constraint exactly as often as before |
| `Positions.DeletionShrinks` | RCD.py:87 | deleting a position inside the sequence shortens it and picks that element |
| `Positions.KeepLength` | RCD.py:87 | deleting the same columns from a row and from the header leaves them equally wide |
| `Worked.FirstProfiles` | RCD.py:58-75 | on the worked tableau, whatever the header, the profiles are (1, 0) and (1, 1), and only C2 is ranked |
| `Worked.FirstStep` | RCD.py:80-100 | the first step ranks C2, deletes both losers, and pruning leaves no candidate row |
| `Worked.LastStep` | RCD.py:49-65 | with only the header left, the run completes if the header is a competing winner, and otherwise ends with `NoWinner` |
| `Worked.HeaderDecides` | RCD.py:47-110 | the whole run on the worked tableau gives C2 then C1, or only C2 followed by `NoWinner`, as the header decides |
| `Worked.PhantomMark` | RCD.py:49-75 | with one constraint named `*Coda` and a single winner without marks, the competing header is the only loser, the mark in the name ranks `*Coda`, and the run then ends with `NoWinner` |

## Left out

- Command-line handling (`RCD.py:19-23`) and reading the file
  (`RCD.py:26-27`): these are I/O. The model starts from the lines already
  split into fields (`Tableau.FromTable`).
- Splitting a line at commas and stripping whitespace (`RCD.py:30`): string
  plumbing. A field that comes from the file cannot contain a line break, so
  the model's trailing-mark test ignores Python's `$` matching before a
  final newline.
- `print_tableau` and the progress messages (`RCD.py:6-16`, `RCD.py:88-89`,
  `RCD.py:103-104`) and the final printout with the reordered tableau
  (`RCD.py:118-145`): presentation only, built from `ORDER`.
- The `iteration` counter (`RCD.py:41`, `RCD.py:107`): it feeds only the
  progress messages.
- Going on after the header row is deleted: the model stops with
  `HeaderGone` and keeps the strata ranked so far. After that step the code
  would read a data row as constraint names, which this model does not
  follow.
- numpy's shape special cases for a single winner or a single explained row
  (`RCD.py:55`, `RCD.py:58`, `RCD.py:85`): they give the same values as the
  general case, which is what the model computes.
- A ragged file: `np.array` at `RCD.py:40` does not build a two-dimensional
  array from rows of different lengths. `Tableau.FromTable` requires a
  rectangular table with a header of at least two fields.
- An empty `satisfied` list (`RCD.py:99-100`) is modelled as deleting no
  row. `np.array([])` has a floating-point type, and recent numpy versions
  refuse such an index array in `np.delete`; the model does not depend on
  the numpy version.
- Wrong-typed or overlong cells: cells are unbounded strings and counts
  unbounded naturals, as in Python.
