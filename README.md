# make_table: a verified model of an unfinished box-drawing table formatter

`make_table(rows, labels=None, centered=False)` in `qualifier/qualifier.py` is meant to
draw a two-dimensional list of values as a text grid with box-drawing characters. The
code renders only part of that:

- it measures every column;
- it draws the top border `┌──┬───┐`;
- when labels are given, it adds a label row `│boss |   baby    |` and a separator
  `├──┼───┤`.

It never draws a data row or a bottom border. It never reads `centered`. It returns
`None` when `rows` has no first row.

The model has four modules, one per helper:

- `Widths` (`widths.dfy`) models `find_column_lengths`. The method `FindColumnLengths`
  keeps the source's nested loops over a zero-filled array. It is proved equal to
  `ColumnLengths`, which gives the column maximum for each column (`ColumnMax`).
  Lemmas show that each width is exactly that maximum: every cell of the column fits
  in it, and it is 0 or the length of some cell. Labels take no part in it.
- `Borders` (`borders.dfy`) models `build_top_line` and the separator half of
  `build_headers`. `RuleUpTo` is the rule as the loop leaves it after `n` columns.
  Lemmas give the exact layout: the corner, then each dash run at a computed offset,
  each followed by its junction. A further lemma shows that the separator line equals
  the top line with the corners and junctions swapped.
- `Headers` (`headers.dfy`) models `build_headers`. `Center` is Python's `^` format
  alignment. Lemmas give the label row's layout, and show that the label row lines up
  with the top border exactly when no label is longer than its column.
- `Table` (`table.dfy`) models `make_table`. `MakeTable` is proved equal to the
  function `Render`, which has no `centered` parameter. Lemmas show that the first line
  is the same with or without labels. For labels without line breaks, they show that
  the result has one line, or three with labels, whatever the number of rows. One
  lemma gives the full text for the script's sample input.

Cells and labels are strings (`seq<char>`). A cell's width is its length, as Python's
`len` gives it (one per code point). The Python `labels` argument can be `None` or a
list, and `if labels:` treats `None` and `[]` alike. It is modelled as a `seq<string>`
in which `[]` stands for both.

The docstring of `make_table` (qualifier/qualifier.py:8-14) asks for rows of equal
length and for as many labels as each row has cells. It says that `centered` chooses
between centred and left-aligned items, and that the result is a table of the rows
passed in. The code differs from it, and the model follows the code:

- column widths ignore the labels;
- labels are always centred, and `centered` is never read;
- no data row and no bottom border is drawn;
- rows longer than the first are accepted, and their extra cells are ignored;
- fewer labels than columns are accepted, and only those labels are drawn.

## Model

| member | source | states |
|---|---|---|
| `Widths.FindColumnLengths` | qualifier/qualifier.py:16-22 | the nested loops over the zero-filled list return, for each of the `n_cols` columns, the maximum length over the first `n_rows` cells of that column |
| `Widths.ColumnLengthsAreColumnMaxima` | qualifier/qualifier.py:17-21 | there are exactly `n_cols` widths; each is at least the length of every cell in its column, and is either 0 or the length of one of those cells |
| `Widths.ColumnMaxIsUpperBound` | qualifier/qualifier.py:18-21 | no cell of a column is longer than the column's width |
| `Widths.ColumnMaxIsLeast` | qualifier/qualifier.py:18-21 | any number that bounds every cell of a column also bounds its width, so the width is the least such bound |
| `Widths.ColumnMaxIsAttained` | qualifier/qualifier.py:17-21 | a width is the starting 0 or the length of some cell in its column |
| `Widths.ShrinkingCellsKeepsColumnMax` | qualifier/qualifier.py:18-21 | shortening cells of a column leaves its width unchanged as long as one cell still has the old maximum length |
| `Borders.RuleUpToShape` | qualifier/qualifier.py:25-31 | after n columns the rule is 1 + sum of the first n widths + n long, starts with its corner, and holds each column's run of dashes at its offset, followed by the last-column or the inner junction |
| `Borders.TopLineSegments` | qualifier/qualifier.py:26-31 | in the top line, every column i has a run of exactly `col_lens[i]` dashes at its offset, followed by `┐` for the last column and `┬` for the others |
| `Borders.TopLineShape` | qualifier/qualifier.py:24-32 | with at least one column, the top line starts with `┌`, ends with `┐` and a line break, is sum(widths) + columns + 2 long, and holds the dash runs separated by `┬` |
| `Borders.RulesWithoutColumns` | qualifier/qualifier.py:24-32 | with no columns, the top line is `┌` and a line break, and the separator is `├` and a line break; no closing corner is written |
| `Borders.RuleUpToRelabel` | qualifier/qualifier.py:41-47 | after any number of columns, the separator rule is as long as the top rule, and agrees with it character by character once `┌ ┬ ┐` become `├ ┼ ┤` |
| `Borders.SeparatorMatchesTopLine` | qualifier/qualifier.py:41-49 | the separator line is as long as the top line and has dashes at exactly the same places; only the corners and junctions differ |
| `Borders.BuildTopLine` | qualifier/qualifier.py:24-32 | the loop over the widths builds the top border: the left corner, the columns' dash runs and junctions, and a line break |
| `Headers.Center` | qualifier/qualifier.py:38 | the centred label is max(len(label), width) long |
| `Headers.CenterLayout` | qualifier/qualifier.py:38 | the label appears whole, never truncated, after floor(slack/2) spaces and before the remaining slack as spaces |
| `Headers.LabelRowUpToShape` | qualifier/qualifier.py:35-38 | after n labels the row starts with `│` and holds each centred label at its offset followed by a plain ASCII vertical bar |
| `Headers.LabelRowShape` | qualifier/qualifier.py:35-39 | the label row starts with `│` and ends with a line break. Each label is centred in max(len(label), width) characters and followed by a plain ASCII vertical bar. The row's length is the sum of those cell widths + labels + 2 |
| `Headers.CellSumCoversWidths` | qualifier/qualifier.py:37-38 | the room taken by the centred labels is at least the sum of their columns' widths, and equal to it exactly when every label fits |
| `Headers.LabelRowAlignsWithTopLine` | qualifier/qualifier.py:35-39 | with one label per column, the label row is as long as the top border if and only if no label is longer than its column's width |
| `Headers.BuildHeaders` | qualifier/qualifier.py:34-49 | the two loops build the label row, then the separator line |
| `Table.Render` | qualifier/qualifier.py:52-57 | the result is `None` exactly when `rows` has no first row |
| `Table.MakeTable` | qualifier/qualifier.py:51-67 | returns `None` for empty `rows`. Otherwise it returns the top border, followed by the header block when `labels` is non-empty. The result is the same for both values of `centered` |
| `Table.TableTopLineIgnoresLabels` | qualifier/qualifier.py:59-65 | the table begins with the same top border whatever the labels are, so labels never change a width |
| `Table.TableLineCount` | qualifier/qualifier.py:59-67 | with single-line labels, a table has one line without labels and three with them, whatever the number of rows: no data row or bottom border is drawn |
| `Table.SampleWidths` | qualifier/qualifier.py:71-73 | the sample rows have column widths 5 and 11 |
| `Table.SampleTable` | qualifier/qualifier.py:71-74 | the sample table with labels `boss` and `baby` is exactly `┌─────┬───────────┐`, the label row (`boss` padded to 5, `baby` centred in 11, each followed by an ASCII bar) and `├─────┼───────────┤`, each ending in a line break |

## Left out

- The script entry point prints the sample table (qualifier/qualifier.py:70-75). Printing is I/O and is not modelled; its input is used only in `Table.SampleWidths`, `Table.SampleLabelRow` and `Table.SampleTable`.
- Cells of any type: the source calls `len` on each cell and `str` on each label. Cells and labels are modelled as strings.
- The `TypeError` branch: the source also returns `None` when `rows` cannot be indexed. Every modelled `rows` is a sequence of sequences, so only the `IndexError` case (empty `rows`) leads to `None`.
- A row shorter than the first row, or more labels than the first row has cells, raises `IndexError` outside the `try`. These crashes are preconditions (`Table.WellShaped`), not modelled results.
- Sharing: the source's lists and strings are immutable values here, so aliasing is not modelled.
