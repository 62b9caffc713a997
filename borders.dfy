/** The horizontal rules of a table: the nested helper `build_top_line` of `make_table`
    and the separator line that closes the header block. */
module Borders {

  /** A run of n copies of c, Python's `c * n`. */
  function Repeat(c: char, n: nat): (r: string)
    ensures |r| == n && forall p :: 0 <= p < n ==> r[p] == c
  {
    seq(n, _ => c)
  }

  /** A run of n horizontal box-drawing characters, `'─' * n`. */
  function Dashes(n: nat): string {
    Repeat('─', n)
  }

  /** The character written after column i of k: `right` after the last one, `mid` otherwise. */
  function Junction(mid: char, right: char, i: nat, k: nat): char {
    if i == k - 1 then right else mid
  }

  /** A rule as the builder loop leaves it after n of the widths ws: `left`, then for
      each column its dashes and its junction. */
  function RuleUpTo(left: char, mid: char, right: char, ws: seq<nat>, n: nat): string
    requires n <= |ws|
  {
    if n == 0 then [left]
    else RuleUpTo(left, mid, right, ws, n - 1) + Dashes(ws[n - 1]) + [Junction(mid, right, n - 1, |ws|)]
  }

  /** The top border `┌──┬───┐` followed by a line break. */
  function TopLine(ws: seq<nat>): string {
    RuleUpTo('┌', '┬', '┐', ws, |ws|) + "\n"
  }

  /** The line under the labels `├──┼───┤` followed by a line break. */
  function SeparatorLine(ws: seq<nat>): string {
    RuleUpTo('├', '┼', '┤', ws, |ws|) + "\n"
  }

  /** The sum of the widths. */
  function Sum(ws: seq<nat>): nat {
    if ws == [] then 0 else Sum(ws[..|ws| - 1]) + ws[|ws| - 1]
  }

  /** Where the dash run of column i begins in a rule: after the left corner, the
      i earlier dash runs and their i junctions. */
  function Offset(ws: seq<nat>, i: nat): nat
    requires i <= |ws|
  {
    1 + Sum(ws[..i]) + i
  }

  lemma OffsetStep(ws: seq<nat>, i: nat)
    requires i < |ws|
    ensures Offset(ws, i + 1) == Offset(ws, i) + ws[i] + 1
  {
    assert ws[..i + 1][..i] == ws[..i];
  }

  /** A rule after n columns holds the left corner, then for every column i its dash
      run of ws[i] characters at Offset(ws, i) and its junction right after it. */
  lemma {:induction false} RuleUpToShape(left: char, mid: char, right: char, ws: seq<nat>, n: nat)
    requires n <= |ws|
    ensures |RuleUpTo(left, mid, right, ws, n)| == Offset(ws, n)
    ensures RuleUpTo(left, mid, right, ws, n)[0] == left
    ensures forall i :: 0 <= i < n ==>
              var line, o := RuleUpTo(left, mid, right, ws, n), Offset(ws, i);
              o + ws[i] < |line| &&
              line[o..o + ws[i]] == Dashes(ws[i]) &&
              line[o + ws[i]] == Junction(mid, right, i, |ws|)
  {
    if n > 0 {
      RuleUpToShape(left, mid, right, ws, n - 1);
      OffsetStep(ws, n - 1);
      var prev := RuleUpTo(left, mid, right, ws, n - 1);
      var tail := Dashes(ws[n - 1]) + [Junction(mid, right, n - 1, |ws|)];
      var line := RuleUpTo(left, mid, right, ws, n);
      assert line == prev + tail;
      forall i | 0 <= i < n
        ensures var o := Offset(ws, i);
                o + ws[i] < |line| &&
                line[o..o + ws[i]] == Dashes(ws[i]) &&
                line[o + ws[i]] == Junction(mid, right, i, |ws|)
      {
        var o := Offset(ws, i);
        if i < n - 1 {
          assert line[o..o + ws[i]] == prev[o..o + ws[i]];
        } else {
          assert o == |prev|;
          assert line[o..o + ws[i]] == tail[..ws[i]];
        }
      }
    }
  }

  /** Every column's dash run and junction sit in the top line where they sit in its rule. */
  lemma TopLineSegments(ws: seq<nat>)
    ensures forall i :: 0 <= i < |ws| ==>
              var line, o := TopLine(ws), Offset(ws, i);
              o + ws[i] < |line| - 1 &&
              line[o..o + ws[i]] == Dashes(ws[i]) &&
              line[o + ws[i]] == Junction('┬', '┐', i, |ws|)
  {
    var rule := RuleUpTo('┌', '┬', '┐', ws, |ws|);
    var line := TopLine(ws);
    RuleUpToShape('┌', '┬', '┐', ws, |ws|);
    forall i | 0 <= i < |ws|
      ensures var o := Offset(ws, i);
              o + ws[i] < |line| - 1 &&
              line[o..o + ws[i]] == Dashes(ws[i]) &&
              line[o + ws[i]] == Junction('┬', '┐', i, |ws|)
    {
      var o := Offset(ws, i);
      assert line[o..o + ws[i]] == rule[o..o + ws[i]];
    }
  }

  /** For at least one column, the top line starts with `┌`, ends with `┐` and a line
      break, is sum(ws) + |ws| + 2 characters long, and holds for every column i a run
      of ws[i] dashes at Offset(ws, i), followed by `┐` for the last column and `┬`
      for the others. */
  lemma TopLineShape(ws: seq<nat>)
    requires |ws| >= 1
    ensures |TopLine(ws)| == Sum(ws) + |ws| + 2
    ensures TopLine(ws)[0] == '┌'
    ensures TopLine(ws)[|TopLine(ws)| - 2] == '┐' && TopLine(ws)[|TopLine(ws)| - 1] == '\n'
    ensures forall i :: 0 <= i < |ws| ==>
              var line, o := TopLine(ws), Offset(ws, i);
              o + ws[i] < |line| - 1 &&
              line[o..o + ws[i]] == Dashes(ws[i]) &&
              line[o + ws[i]] == (if i == |ws| - 1 then '┐' else '┬')
  {
    var k := |ws|;
    RuleUpToShape('┌', '┬', '┐', ws, k);
    assert ws[..k] == ws;
    TopLineSegments(ws);
    OffsetStep(ws, k - 1);
  }

  /** With no columns at all (a first row that is empty) the rules are the left
      corner and the line break alone: no closing corner is written. */
  lemma RulesWithoutColumns()
    ensures TopLine([]) == "┌\n" && SeparatorLine([]) == "├\n"
  {
  }

  /** How a top-line character reads on the separator line: corners and junctions
      change, dashes and the line break stay. */
  function Relabel(c: char): (d: char)
    ensures (c == '─') == (d == '─')
  {
    match c
    case '┌' => '├'
    case '┬' => '┼'
    case '┐' => '┤'
    case _ => c
  }

  lemma {:induction false} RuleUpToRelabel(ws: seq<nat>, n: nat)
    requires n <= |ws|
    ensures var top, sep := RuleUpTo('┌', '┬', '┐', ws, n), RuleUpTo('├', '┼', '┤', ws, n);
            |sep| == |top| && forall p :: 0 <= p < |top| ==> sep[p] == Relabel(top[p])
  {
    if n > 0 {
      RuleUpToRelabel(ws, n - 1);
    }
  }

  /** The separator line has the same length and the same dash runs as the top line;
      only the corners and junctions differ: `├`, `┼`, `┤` stand where the top line
      has `┌`, `┬`, `┐`. */
  lemma SeparatorMatchesTopLine(ws: seq<nat>)
    ensures |SeparatorLine(ws)| == |TopLine(ws)|
    ensures forall p :: 0 <= p < |TopLine(ws)| ==>
              SeparatorLine(ws)[p] == Relabel(TopLine(ws)[p]) &&
              (TopLine(ws)[p] == '─' <==> SeparatorLine(ws)[p] == '─')
  {
    RuleUpToRelabel(ws, |ws|);
  }

  /** `build_top_line`: the left corner, then per column a dash run and a junction,
      then a line break. */
  method BuildTopLine(colLens: seq<nat>) returns (line: string)
    ensures line == TopLine(colLens)
  {
    line := "┌";
    for i := 0 to |colLens|
      invariant line == RuleUpTo('┌', '┬', '┐', colLens, i)
    {
      if i == |colLens| - 1 {
        line := line + Dashes(colLens[i]) + "┐";
      } else {
        line := line + Dashes(colLens[i]) + "┬";
      }
    }
    line := line + "\n";
  }
}
