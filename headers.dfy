/** The header block of a table: the nested helper `build_headers` of `make_table`,
    a row of centred labels followed by the separator line. */
module Headers {
  import opened Widths
  import opened Borders

  /** Python's centred format `f'{s:^{w}}'`: s padded with spaces to width w. */
  function Center(s: string, w: nat): (r: string)
    ensures |r| == Max(|s|, w)
  {
    var slack := if w > |s| then w - |s| else 0;
    Repeat(' ', slack / 2) + s + Repeat(' ', slack - slack / 2)
  }

  /** A centred label keeps every character of the label, never cut, with half the
      slack (rounded down) as spaces on its left and the rest as spaces on its right. */
  lemma CenterLayout(s: string, w: nat)
    ensures var r := Center(s, w);
            var left := (|r| - |s|) / 2;
            r[left..left + |s|] == s &&
            (forall p :: 0 <= p < left ==> r[p] == ' ') &&
            (forall p :: left + |s| <= p < |r| ==> r[p] == ' ')
  {
    var slack := if w > |s| then w - |s| else 0;
    var r := Center(s, w);
    assert r == Repeat(' ', slack / 2) + s + Repeat(' ', slack - slack / 2);
    assert r[slack / 2..slack / 2 + |s|] == s;
  }

  /** The label row as the loop leaves it after n labels: `│`, then each label centred
      in its column's width and followed by a plain `|`. */
  function LabelRowUpTo(labels: seq<string>, ws: seq<nat>, n: nat): string
    requires n <= |labels| <= |ws|
  {
    if n == 0 then "│"
    else LabelRowUpTo(labels, ws, n - 1) + Center(labels[n - 1], ws[n - 1]) + "|"
  }

  /** The whole label row, ended by a line break. */
  function LabelRow(labels: seq<string>, ws: seq<nat>): string
    requires |labels| <= |ws|
  {
    LabelRowUpTo(labels, ws, |labels|) + "\n"
  }

  /** What `build_headers` returns: the label row, then the separator line. */
  function HeaderBlock(labels: seq<string>, ws: seq<nat>): string
    requires |labels| <= |ws|
  {
    LabelRow(labels, ws) + SeparatorLine(ws)
  }

  /** The room taken by the first n labels, each the longer of itself and its column. */
  function CellSum(labels: seq<string>, ws: seq<nat>, n: nat): nat
    requires n <= |labels| <= |ws|
  {
    if n == 0 then 0 else CellSum(labels, ws, n - 1) + Max(|labels[n - 1]|, ws[n - 1])
  }

  /** Where the centred label i begins in the label row. */
  function LabelOffset(labels: seq<string>, ws: seq<nat>, i: nat): nat
    requires i <= |labels| <= |ws|
  {
    1 + CellSum(labels, ws, i) + i
  }

  /** After n labels the row holds `│`, then for every label i its centred form at
      LabelOffset(i) and a `|` right after it. */
  lemma {:induction false} LabelRowUpToShape(labels: seq<string>, ws: seq<nat>, n: nat)
    requires n <= |labels| <= |ws|
    ensures |LabelRowUpTo(labels, ws, n)| == LabelOffset(labels, ws, n)
    ensures LabelRowUpTo(labels, ws, n)[0] == '│'
    ensures forall i {:trigger LabelOffset(labels, ws, i)} :: 0 <= i < n ==>
              var row, o, c := LabelRowUpTo(labels, ws, n), LabelOffset(labels, ws, i), Center(labels[i], ws[i]);
              o + |c| < |row| &&
              row[o..o + |c|] == c &&
              row[o + |c|] == '|'
  {
    if n > 0 {
      LabelRowUpToShape(labels, ws, n - 1);
      var prev := LabelRowUpTo(labels, ws, n - 1);
      var tail := Center(labels[n - 1], ws[n - 1]) + "|";
      var row := LabelRowUpTo(labels, ws, n);
      assert row == prev + tail;
      forall i | 0 <= i < n
        ensures var o, c := LabelOffset(labels, ws, i), Center(labels[i], ws[i]);
                o + |c| < |row| &&
                row[o..o + |c|] == c &&
                row[o + |c|] == '|'
      {
        var o, c := LabelOffset(labels, ws, i), Center(labels[i], ws[i]);
        if i < n - 1 {
          assert o + |c| < |prev|;
          assert row[o..o + |c|] == prev[o..o + |c|];
          assert row[o + |c|] == prev[o + |c|];
        } else {
          assert o == |prev|;
          assert row[o..o + |c|] == tail[..|c|];
          assert row[o + |c|] == tail[|c|];
        }
      }
    }
  }

  /** The label row starts with `│`, ends with a line break and holds, for each label i
      at LabelOffset(i), the label centred in max(|label|, ws[i]) characters followed
      by `|`; it is therefore sum(max(|label_i|, ws[i])) + |labels| + 2 long. */
  lemma LabelRowShape(labels: seq<string>, ws: seq<nat>)
    requires |labels| <= |ws|
    ensures |LabelRow(labels, ws)| == CellSum(labels, ws, |labels|) + |labels| + 2
    ensures LabelRow(labels, ws)[0] == '│' && LabelRow(labels, ws)[|LabelRow(labels, ws)| - 1] == '\n'
    ensures forall i {:trigger LabelOffset(labels, ws, i)} :: 0 <= i < |labels| ==>
              var row, o, c := LabelRow(labels, ws), LabelOffset(labels, ws, i), Center(labels[i], ws[i]);
              |c| == Max(|labels[i]|, ws[i]) &&
              o + |c| < |row| - 1 &&
              row[o..o + |c|] == c &&
              row[o + |c|] == '|'
  {
    var prefix := LabelRowUpTo(labels, ws, |labels|);
    var row := LabelRow(labels, ws);
    LabelRowUpToShape(labels, ws, |labels|);
    forall i | 0 <= i < |labels|
      ensures var o, c := LabelOffset(labels, ws, i), Center(labels[i], ws[i]);
              o + |c| < |row| - 1 &&
              row[o..o + |c|] == c &&
              row[o + |c|] == '|'
    {
      var o, c := LabelOffset(labels, ws, i), Center(labels[i], ws[i]);
      assert row[o..o + |c|] == prefix[o..o + |c|];
    }
  }

  /** The labelled room is never less than the widths, and equals them exactly when
      every label fits in its column. */
  lemma {:induction false} CellSumCoversWidths(labels: seq<string>, ws: seq<nat>, n: nat)
    requires n <= |labels| <= |ws|
    ensures CellSum(labels, ws, n) >= Sum(ws[..n])
    ensures CellSum(labels, ws, n) == Sum(ws[..n]) <==> forall i :: 0 <= i < n ==> |labels[i]| <= ws[i]
  {
    if n > 0 {
      CellSumCoversWidths(labels, ws, n - 1);
      assert ws[..n][..n - 1] == ws[..n - 1];
    }
  }

  /** With one label per column, the label row is exactly as wide as the top border if
      and only if no label is longer than its column: widths ignore labels, so a long
      label pushes the rest of its row out of line with the borders. */
  lemma LabelRowAlignsWithTopLine(labels: seq<string>, ws: seq<nat>)
    requires |labels| == |ws|
    ensures |LabelRow(labels, ws)| == |TopLine(ws)| <==> forall i :: 0 <= i < |ws| ==> |labels[i]| <= ws[i]
  {
    LabelRowShape(labels, ws);
    CellSumCoversWidths(labels, ws, |ws|);
    RuleUpToShape('┌', '┬', '┐', ws, |ws|);
    assert ws[..|ws|] == ws;
  }

  /** `build_headers`: the label row, built label by label, then the separator line,
      built column by column. */
  method BuildHeaders(labels: seq<string>, colLens: seq<nat>) returns (line: string)
    requires |labels| <= |colLens|
    ensures line == HeaderBlock(labels, colLens)
  {
    line := "│";
    for i := 0 to |labels|
      invariant line == LabelRowUpTo(labels, colLens, i)
    {
      var colLen := colLens[i];
      line := line + Center(labels[i], colLen) + "|";
    }
    line := line + "\n";
    ghost var row := line;

    line := line + "├";
    for i := 0 to |colLens|
      invariant line == row + RuleUpTo('├', '┼', '┤', colLens, i)
    {
      if i == |colLens| - 1 {
        line := line + Dashes(colLens[i]) + "┤";
      } else {
        line := line + Dashes(colLens[i]) + "┼";
      }
    }
    line := line + "\n";
  }
}
