/** `make_table`: measures the columns, then joins the top border and, when labels are
    given, the header block. The rows themselves, a bottom border and the `centered`
    flag play no part in what it returns. */
module Table {
  import opened Widths
  import opened Borders
  import opened Headers

  datatype Option<T> = None | Some(value: T)

  /** What the caller must supply for the measuring and the label loop not to index
      past the end of a list: every row at least as long as the first, and no more
      labels than the first row has cells. An empty `rows` is handled, not excluded. */
  predicate WellShaped(rows: seq<seq<string>>, labels: seq<string>) {
    |rows| > 0 ==> Covers(rows, |rows[0]|, |rows|) && |labels| <= |rows[0]|
  }

  /** The text `make_table` returns. No labels (None or an empty list) is `[]`. */
  function Render(rows: seq<seq<string>>, labels: seq<string>): (t: Option<string>)
    requires WellShaped(rows, labels)
    ensures t.None? <==> |rows| == 0
  {
    if |rows| == 0 then None
    else
      var ws := ColumnLengths(rows, |rows[0]|, |rows|);
      Some(TopLine(ws) + (if labels == [] then "" else HeaderBlock(labels, ws)))
  }

  /** `make_table`; `centered` is accepted and never read. */
  method MakeTable(rows: seq<seq<string>>, labels: seq<string>, centered: bool) returns (table: Option<string>)
    requires WellShaped(rows, labels)
    ensures table == Render(rows, labels)
  {
    var text := "";
    if |rows| == 0 {
      return None;
    }
    var nRows, nCols := |rows|, |rows[0]|;
    var colLens := FindColumnLengths(rows, nCols, nRows);
    var top := BuildTopLine(colLens);
    text := text + top;
    assert text == top;
    if labels != [] {
      var header := BuildHeaders(labels, colLens);
      text := text + header;
    }
    assert text == top + (if labels == [] then "" else HeaderBlock(labels, colLens));
    table := Some(text);
  }

  /** The first line of the table is the same with or without labels: the labels never
      widen a column. */
  lemma TableTopLineIgnoresLabels(rows: seq<seq<string>>, labels: seq<string>)
    requires WellShaped(rows, labels) && |rows| > 0
    ensures var plain := Render(rows, []).value;
            var top := TopLine(ColumnLengths(rows, |rows[0]|, |rows|));
            plain == top && top <= Render(rows, labels).value
  {
  }

  /** The number of line breaks in a text. */
  function NewlineCount(s: string): nat {
    if s == [] then 0 else NewlineCount(s[..|s| - 1]) + (if s[|s| - 1] == '\n' then 1 else 0)
  }

  lemma {:induction false} NewlineCountConcat(a: string, b: string)
    ensures NewlineCount(a + b) == NewlineCount(a) + NewlineCount(b)
  {
    if b != [] {
      assert (a + b)[..|a + b| - 1] == a + b[..|b| - 1];
      assert (a + b)[|a + b| - 1] == b[|b| - 1];
      NewlineCountConcat(a, b[..|b| - 1]);
    } else {
      assert a + b == a;
    }
  }

  lemma {:induction false} NoBreakNoCount(s: string)
    requires forall p :: 0 <= p < |s| ==> s[p] != '\n'
    ensures NewlineCount(s) == 0
  {
    if s != [] {
      NoBreakNoCount(s[..|s| - 1]);
    }
  }

  lemma {:induction false} RuleHasNoBreak(left: char, mid: char, right: char, ws: seq<nat>, n: nat)
    requires n <= |ws| && left != '\n' && mid != '\n' && right != '\n'
    ensures forall p :: 0 <= p < |RuleUpTo(left, mid, right, ws, n)| ==> RuleUpTo(left, mid, right, ws, n)[p] != '\n'
  {
    if n > 0 {
      RuleHasNoBreak(left, mid, right, ws, n - 1);
    }
  }

  lemma {:induction false} LabelRowHasNoBreak(labels: seq<string>, ws: seq<nat>, n: nat)
    requires n <= |labels| <= |ws|
    requires forall i, p :: 0 <= i < |labels| && 0 <= p < |labels[i]| ==> labels[i][p] != '\n'
    ensures forall p :: 0 <= p < |LabelRowUpTo(labels, ws, n)| ==> LabelRowUpTo(labels, ws, n)[p] != '\n'
  {
    if n > 0 {
      LabelRowHasNoBreak(labels, ws, n - 1);
      CenterLayout(labels[n - 1], ws[n - 1]);
    }
  }

  /** With single-line labels, a table has exactly one line when no labels are given
      and three (top border, label row, separator) when they are, however many rows
      it was given: no data row and no bottom border is ever drawn. */
  lemma TableLineCount(rows: seq<seq<string>>, labels: seq<string>)
    requires WellShaped(rows, labels) && |rows| > 0
    requires forall i, p :: 0 <= i < |labels| && 0 <= p < |labels[i]| ==> labels[i][p] != '\n'
    ensures NewlineCount(Render(rows, labels).value) == if labels == [] then 1 else 3
  {
    var ws := ColumnLengths(rows, |rows[0]|, |rows|);
    var top := RuleUpTo('┌', '┬', '┐', ws, |ws|);
    var sep := RuleUpTo('├', '┼', '┤', ws, |ws|);
    RuleHasNoBreak('┌', '┬', '┐', ws, |ws|);
    NoBreakNoCount(top);
    NewlineCountConcat(top, "\n");
    assert NewlineCount("\n") == 1 by {
      assert "\n"[..0] == [];
    }
    if labels != [] {
      var row := LabelRowUpTo(labels, ws, |labels|);
      RuleHasNoBreak('├', '┼', '┤', ws, |ws|);
      LabelRowHasNoBreak(labels, ws, |labels|);
      NoBreakNoCount(sep);
      NoBreakNoCount(row);
      NewlineCountConcat(sep, "\n");
      NewlineCountConcat(row, "\n");
      NewlineCountConcat(row + "\n", sep + "\n");
      NewlineCountConcat(top + "\n", (row + "\n") + (sep + "\n"));
    } else {
      assert Render(rows, labels).value == top + "\n";
    }
  }

  /** The rows of the sample table built by the script entry point. */
  const SampleRows: seq<seq<string>> := [["hello", "there"], ["obi", "wan"], ["ooga", "boogachooga"]]

  lemma SampleWidths()
    ensures ColumnLengths(SampleRows, 2, 3) == [5, 11]
  {
    var ws := ColumnLengths(SampleRows, 2, 3);
    assert ws[0] == 5;
    assert ws[1] == 11;
  }

  lemma SampleRules()
    ensures TopLine([5, 11]) == "┌─────┬───────────┐\n"
    ensures SeparatorLine([5, 11]) == "├─────┼───────────┤\n"
  {
    var ws: seq<nat> := [5, 11];
    assert Dashes(5) == "─────";
    assert Dashes(11) == "───────────";
    assert RuleUpTo('┌', '┬', '┐', ws, 1) == "┌─────┬";
    assert RuleUpTo('├', '┼', '┤', ws, 1) == "├─────┼";
  }

  lemma SampleLabelRow()
    ensures LabelRow(["boss", "baby"], [5, 11]) == "│boss |   baby    |\n"
  {
    var ws: seq<nat> := [5, 11];
    assert Center("boss", 5) == "boss ";
    assert Center("baby", 11) == "   baby    ";
    assert LabelRowUpTo(["boss", "baby"], ws, 1) == "│boss |";
  }

  /** The sample table of the script entry point: the widths are 5 and 11, the labels
      "boss" and "baby" take no part in them, and the text is the top border, the label
      row and the separator only. */
  lemma SampleTable()
    ensures Render(SampleRows, ["boss", "baby"]) ==
              Some("┌─────┬───────────┐\n" + "│boss |   baby    |\n" + "├─────┼───────────┤\n")
  {
    SampleWidths();
    SampleRules();
    SampleLabelRow();
    var ws := ColumnLengths(SampleRows, 2, 3);
    assert ws == [5, 11];
    assert Render(SampleRows, ["boss", "baby"]) == Some(TopLine(ws) + HeaderBlock(["boss", "baby"], ws));
    var top, row, sep := TopLine(ws), LabelRow(["boss", "baby"], ws), SeparatorLine(ws);
    assert top + (row + sep) == top + row + sep;
  }
}
