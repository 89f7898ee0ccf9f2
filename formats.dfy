// How an annotated line is laid out: a long line is cut to a 120-column window around the
// highlight, and a highlight over several lines shows its first and last two lines and the
// lines that must stay visible, eliding the gaps between them.
module AnnotationFormats {
  import opened Wrappers

  /** The widest line shown whole. */
  const MaxWidth: nat := 120

  /** The width of the `"... "` and `" ..."` markers that replace an elided edge. */
  const MarkerWidth: nat := 4

  /** The part of a long line that is shown, and the highlight made relative to it. */
  datatype Window = Window(displayStart: nat, displayEnd: nat, startElided: bool, endElided: bool,
                           annotation: (nat, nat))

  /**
   * The window of a line longer than 120 characters: 120 characters centred on the middle of
   * the highlight as far as the line allows, an edge elided when it is more than four
   * characters from the line's edge, and the highlight clipped to the window.
   */
  function LongLineWindow(lineLength: nat, highlight: (nat, nat)): (w: Window)
    requires lineLength > MaxWidth && highlight.0 <= highlight.1
    ensures w.displayEnd == w.displayStart + MaxWidth <= lineLength
    ensures w.startElided <==> w.displayStart > MarkerWidth
    ensures w.endElided <==> w.displayEnd + MarkerWidth < lineLength
    ensures w.annotation.1 <= MaxWidth
    ensures highlight.1 <= lineLength ==> w.annotation.0 <= w.annotation.1
    ensures w.displayStart <= highlight.1 && w.displayStart <= (highlight.0 + highlight.1) / 2
    ensures var center := (highlight.0 + highlight.1) / 2;
      center + MaxWidth / 2 <= lineLength ==> center < w.displayEnd && (center >= MaxWidth / 2 ==> center - w.displayStart == MaxWidth / 2)
    ensures w.displayStart <= highlight.0 && highlight.1 <= w.displayEnd ==>
      w.annotation == (highlight.0 - w.displayStart, highlight.1 - w.displayStart)
  {
    var center := (highlight.0 + highlight.1) / 2;
    var fromCenter := if center >= MaxWidth / 2 then center - MaxWidth / 2 else 0;
    var start := if fromCenter <= lineLength - MaxWidth then fromCenter else lineLength - MaxWidth;
    var end := start + MaxWidth;
    var clippedStart := if highlight.0 >= start then highlight.0 else start;
    var clippedEnd := if highlight.1 <= end then highlight.1 else end;
    Window(start, end, start > MarkerWidth, end < lineLength - MarkerWidth,
           (clippedStart - start, clippedEnd - start))
  }

  /**
   * The text printed for a line: the line itself up to 120 characters; otherwise exactly 120
   * characters, in which every column shows the window's character at that column except
   * where a marker replaces an elided edge.
   */
  function DisplayedLine(line: string, highlight: (nat, nat)): (r: string)
    requires highlight.0 <= highlight.1
    ensures |line| <= MaxWidth ==> r == line
    ensures |line| > MaxWidth ==>
      var w := LongLineWindow(|line|, highlight);
      && |r| == MaxWidth
      && (w.startElided ==> r[..MarkerWidth] == "... ")
      && (w.endElided ==> r[MaxWidth - MarkerWidth..] == " ...")
      && forall k :: (if w.startElided then MarkerWidth else 0) <= k < (if w.endElided then MaxWidth - MarkerWidth else MaxWidth) ==>
           r[k] == line[w.displayStart + k]
  {
    if |line| <= MaxWidth then line
    else
      var w := LongLineWindow(|line|, highlight);
      var shownStart := if w.startElided then w.displayStart + MarkerWidth else w.displayStart;
      var shownEnd := if w.endElided then w.displayEnd - MarkerWidth else w.displayEnd;
      (if w.startElided then "... " else "") + line[shownStart..shownEnd] + (if w.endElided then " ..." else "")
  }

  /** An inclusive range of line numbers. */
  type LineRange = (nat, nat)

  /**
   * The ranges of lines printed after the first line of a multi-line highlight: the first
   * range (only its end is used), then up to two more.
   */
  datatype Ranges = Ranges(first: LineRange, second: Option<LineRange>, third: Option<LineRange>)

  /** The ranges after the first, in order. */
  function Later(r: Ranges): (later: seq<LineRange>)
    ensures |later| <= 2
  {
    (if r.second.Some? then [r.second.value] else []) + (if r.third.Some? then [r.third.value] else [])
  }

  /**
   * What the source's range choice needs of its inputs: the highlight covers several lines,
   * and the lines that must be visible end no earlier than the highlight's first line and
   * start no later than its last.
   */
  predicate Lines(start: nat, end: nat, visibleStart: nat, visibleEnd: nat) {
    start < end && visibleStart <= visibleEnd && start <= visibleEnd && visibleStart <= end
  }

  /**
   * The range choice as the source writes it. The last two lines form the third range; the
   * must-be-visible lines form the second, merged into the third when at most one line lies
   * between them; the line after the first forms the first range, merged into the second in
   * the same way. A merge keeps the start of the earlier range and the end of the later one.
   */
  function PrintedRangesAsWritten(start: nat, end: nat, visibleStart: nat, visibleEnd: nat): (r: Ranges)
    requires Lines(start, end, visibleStart, visibleEnd)
    ensures r.first.0 == start + 1
  {
    var third: LineRange := (end - 1, end);
    var (second, third) :=
      if visibleEnd + 2 < third.0 then ((visibleStart, visibleEnd), Some(third))
      else ((visibleStart, third.1), None);
    if start + 3 < second.0 then Ranges((start + 1, start + 1), Some(second), third)
    else Ranges((start + 1, second.1), None, third)
  }

  /**
   * The range choice with merges that keep the union of the merged ranges, so the first two
   * and the last two lines are always printed.
   */
  function PrintedRanges(start: nat, end: nat, visibleStart: nat, visibleEnd: nat): (r: Ranges)
    requires Lines(start, end, visibleStart, visibleEnd)
    ensures r.first.0 == start + 1
  {
    var third: LineRange := (end - 1, end);
    var (second, third) :=
      if visibleEnd + 2 < third.0 then ((visibleStart, visibleEnd), Some(third))
      else ((if visibleStart <= third.0 then visibleStart else third.0, third.1), None);
    if start + 3 < second.0 then Ranges((start + 1, start + 1), Some(second), third)
    else
      var firstEnd := if second.1 >= start + 1 then second.1 else start + 1;
      if third.Some? && firstEnd + 2 >= third.value.0 then Ranges((start + 1, end), None, None)
      else Ranges((start + 1, firstEnd), None, third)
  }

  /** Whether line `n` falls in a range after the first line. */
  predicate Covers(start: nat, r: Ranges, n: nat) {
    (start + 1 <= n <= r.first.1) || (exists i :: 0 <= i < |Later(r)| && Later(r)[i].0 <= n <= Later(r)[i].1)
  }

  /**
   * The ranges fit the `count` lines from `start`: each starts after the one before ends and
   * is not reversed, and none goes past the last line.
   */
  predicate Fits(start: nat, count: nat, r: Ranges) {
    count >= 1 && start <= r.first.1 < start + count && LaterFit(start + count, r.first.1, Later(r))
  }

  predicate LaterFit(limit: nat, current: nat, later: seq<LineRange>)
    decreases |later|
  {
    |later| == 0 || (current < later[0].0 <= later[0].1 + 1 && later[0].1 < limit && LaterFit(limit, later[0].1, later[1..]))
  }

  /** At least two lines lie between consecutive ranges, so every elided gap hides two lines or more. */
  predicate Apart(current: nat, later: seq<LineRange>)
    decreases |later|
  {
    |later| == 0 || (current + 2 < later[0].0 && Apart(later[0].1, later[1..]))
  }

  lemma {:induction false} CorrectedFits(start: nat, end: nat, visibleStart: nat, visibleEnd: nat)
    requires Lines(start, end, visibleStart, visibleEnd)
    ensures var r := PrintedRanges(start, end, visibleStart, visibleEnd);
      Fits(start, end - start + 1, r) && Apart(r.first.1, Later(r))
  {
    var r := PrintedRanges(start, end, visibleStart, visibleEnd);
    var later := Later(r);
    if |later| > 0 {
      var rest := later[1..];
      assert |rest| == 0 || |rest[1..]| == 0;
    }
  }

  /**
   * The corrected choice prints the first two lines, the last two lines and every line that
   * must be visible, and only lines of the highlight.
   */
  lemma CorrectedCovers(start: nat, end: nat, visibleStart: nat, visibleEnd: nat, n: nat)
    requires Lines(start, end, visibleStart, visibleEnd)
    requires start < n <= end
    ensures var r := PrintedRanges(start, end, visibleStart, visibleEnd);
      (n == start + 1 || n + 1 >= end || visibleStart <= n <= visibleEnd) ==> Covers(start, r, n)
  {
    var r := PrintedRanges(start, end, visibleStart, visibleEnd);
    var later := Later(r);
    if r.second.Some? && r.second.value.0 <= n <= r.second.value.1 {
      assert later[0] == r.second.value;
    } else if r.third.Some? && r.third.value.0 <= n <= r.third.value.1 {
      assert later[|later| - 1] == r.third.value;
    }
  }

  /**
   * The choice as written loses the second line when the lines that must be visible end on
   * the first line, and the last line but one when they start on the last line.
   */
  lemma AsWrittenDropsLines()
    ensures !Covers(1, PrintedRangesAsWritten(1, 10, 1, 1), 2)
    ensures !Covers(1, PrintedRangesAsWritten(1, 10, 10, 10), 9)
    ensures Covers(1, PrintedRanges(1, 10, 1, 1), 2) && Covers(1, PrintedRanges(1, 10, 10, 10), 9)
  {
    var a := PrintedRangesAsWritten(1, 10, 1, 1);
    assert a == Ranges((2, 1), None, Some((9, 10)));
    assert Later(a) == [(9, 10)];
    var b := PrintedRangesAsWritten(1, 10, 10, 10);
    assert b == Ranges((2, 2), Some((10, 10)), None);
    assert Later(b) == [(10, 10)];
    CorrectedCovers(1, 10, 1, 1, 2);
    CorrectedCovers(1, 10, 10, 10, 9);
  }

  /** A printed row: a numbered line of the source, or a marker for `count` elided lines. */
  datatype Row = LineRow(number: nat, text: string) | SkipRow(count: nat)

  /** The lines numbered `low` up to, not including, `high`, each with its number. */
  function Run(lines: seq<string>, start: nat, low: nat, high: nat): (rows: seq<Row>)
    requires start <= low && high <= start + |lines|
    decreases high - low
  {
    if low >= high then [] else [LineRow(low, lines[low - start])] + Run(lines, start, low + 1, high)
  }

  /** A run holds only its own lines, each with the text at its number. */
  lemma {:induction false} RunRows(lines: seq<string>, start: nat, low: nat, high: nat)
    requires start <= low && high <= start + |lines|
    ensures forall row :: row in Run(lines, start, low, high) ==>
      row.LineRow? && low <= row.number < high && row.text == lines[row.number - start]
    decreases high - low
  {
    if low < high {
      RunRows(lines, start, low + 1, high);
    }
  }

  /** The rows of the later ranges: a skip marker for the lines before each, then its lines. */
  function LaterRows(lines: seq<string>, start: nat, current: nat, later: seq<LineRange>): (rows: seq<Row>)
    requires start <= current && LaterFit(start + |lines|, current, later)
    decreases |later|
  {
    if |later| == 0 then []
    else
      [SkipRow(later[0].0 - current - 1)] + Run(lines, start, later[0].0, later[0].1 + 1)
      + LaterRows(lines, start, later[0].1, later[1..])
  }

  /** The rows printed for a highlight whose lines, numbered from `start`, are `lines`. */
  function Layout(lines: seq<string>, start: nat, r: Ranges): (rows: seq<Row>)
    requires Fits(start, |lines|, r)
  {
    [LineRow(start, lines[0])] + Run(lines, start, start + 1, r.first.1 + 1) + LaterRows(lines, start, r.first.1, Later(r))
  }

  /** The numbers of the lines printed. */
  function Shown(rows: seq<Row>): (s: set<nat>)
  {
    if |rows| == 0 then {}
    else Shown(rows[..|rows| - 1]) + (if rows[|rows| - 1].LineRow? then {rows[|rows| - 1].number} else {})
  }

  lemma {:induction false} ShownAppend(a: seq<Row>, b: seq<Row>)
    ensures Shown(a + b) == Shown(a) + Shown(b)
    decreases |b|
  {
    if |b| == 0 {
      assert a + b == a;
    } else {
      assert (a + b)[..|a + b| - 1] == a + b[..|b| - 1];
      ShownAppend(a, b[..|b| - 1]);
    }
  }

  lemma {:induction false} ShownRun(lines: seq<string>, start: nat, low: nat, high: nat)
    requires start <= low && high <= start + |lines|
    ensures forall n :: n in Shown(Run(lines, start, low, high)) <==> low <= n < high
    decreases high - low
  {
    if low < high {
      ShownRun(lines, start, low + 1, high);
      ShownAppend([LineRow(low, lines[low - start])], Run(lines, start, low + 1, high));
      assert Shown([LineRow(low, lines[low - start])]) == {low} by {
        assert [LineRow(low, lines[low - start])][..0] == [];
      }
    } else {
      assert Run(lines, start, low, high) == [];
    }
  }

  lemma {:induction false} ShownLater(lines: seq<string>, start: nat, current: nat, later: seq<LineRange>)
    requires start <= current && LaterFit(start + |lines|, current, later)
    ensures forall n :: n in Shown(LaterRows(lines, start, current, later)) <==>
      exists i :: 0 <= i < |later| && later[i].0 <= n <= later[i].1
    decreases |later|
  {
    if |later| > 0 {
      var skip := [SkipRow(later[0].0 - current - 1)];
      var run := Run(lines, start, later[0].0, later[0].1 + 1);
      var rest := LaterRows(lines, start, later[0].1, later[1..]);
      ShownLater(lines, start, later[0].1, later[1..]);
      ShownRun(lines, start, later[0].0, later[0].1 + 1);
      ShownAppend(skip + run, rest);
      ShownAppend(skip, run);
      assert Shown(skip) == {} by {
        assert skip[..0] == [];
      }
      forall n | exists i :: 0 <= i < |later| && later[i].0 <= n <= later[i].1
        ensures n in Shown(LaterRows(lines, start, current, later))
      {
        var i :| 0 <= i < |later| && later[i].0 <= n <= later[i].1;
        if i > 0 {
          assert later[1..][i - 1] == later[i];
        }
      }
    }
  }

  /** The lines printed are the first line and exactly the lines the ranges cover. */
  lemma LayoutShows(lines: seq<string>, start: nat, r: Ranges, n: nat)
    requires Fits(start, |lines|, r)
    ensures n in Shown(Layout(lines, start, r)) <==> n == start || Covers(start, r, n)
  {
    var head := [LineRow(start, lines[0])];
    var run := Run(lines, start, start + 1, r.first.1 + 1);
    var rest := LaterRows(lines, start, r.first.1, Later(r));
    ShownAppend(head + run, rest);
    ShownAppend(head, run);
    assert Shown(head) == {start} by {
      assert head[..0] == [];
    }
    ShownRun(lines, start, start + 1, r.first.1 + 1);
    ShownLater(lines, start, r.first.1, Later(r));
  }

  lemma {:induction false} LaterNumbered(lines: seq<string>, start: nat, current: nat, later: seq<LineRange>)
    requires start <= current && LaterFit(start + |lines|, current, later)
    ensures forall row :: row in LaterRows(lines, start, current, later) && row.LineRow? ==>
      start <= row.number < start + |lines| && row.text == lines[row.number - start]
    decreases |later|
  {
    if |later| > 0 {
      LaterNumbered(lines, start, later[0].1, later[1..]);
      RunRows(lines, start, later[0].0, later[0].1 + 1);
    }
  }

  /** Every line printed carries its own number: the text is the highlight's line of that number. */
  lemma LayoutNumbered(lines: seq<string>, start: nat, r: Ranges)
    requires Fits(start, |lines|, r)
    ensures forall row :: row in Layout(lines, start, r) && row.LineRow? ==>
      start <= row.number < start + |lines| && row.text == lines[row.number - start]
  {
    RunRows(lines, start, start + 1, r.first.1 + 1);
    LaterNumbered(lines, start, r.first.1, Later(r));
  }

  /** Every skip marker in the rows of well-apart ranges stands for at least two lines. */
  lemma {:induction false} LaterSkipsAtLeastTwo(lines: seq<string>, start: nat, current: nat, later: seq<LineRange>)
    requires start <= current && LaterFit(start + |lines|, current, later) && Apart(current, later)
    ensures forall row :: row in LaterRows(lines, start, current, later) && row.SkipRow? ==> row.count >= 2
    decreases |later|
  {
    if |later| > 0 {
      LaterSkipsAtLeastTwo(lines, start, later[0].1, later[1..]);
      RunRows(lines, start, later[0].0, later[0].1 + 1);
    }
  }

  /**
   * With the corrected range choice, every skip marker stands for two lines or more: a single
   * hidden line is always printed instead.
   */
  lemma SkipsAtLeastTwo(lines: seq<string>, start: nat, end: nat, visibleStart: nat, visibleEnd: nat)
    requires Lines(start, end, visibleStart, visibleEnd) && |lines| == end - start + 1
    ensures var r := PrintedRanges(start, end, visibleStart, visibleEnd);
      Fits(start, |lines|, r)
      && forall row :: row in Layout(lines, start, r) && row.SkipRow? ==> row.count >= 2
  {
    var r := PrintedRanges(start, end, visibleStart, visibleEnd);
    CorrectedFits(start, end, visibleStart, visibleEnd);
    LaterSkipsAtLeastTwo(lines, start, r.first.1, Later(r));
    RunRows(lines, start, start + 1, r.first.1 + 1);
  }

  /**
   * `lines_iter.by_ref().take(count)` printed through the line printer: the iterator is at
   * line `next` of the highlight and the printer's counter at `printerLine`. Each line taken
   * is printed with the counter's number, and both advance by one.
   */
  method TakeLines(lines: seq<string>, start: nat, printerLine: nat, next: nat, count: nat)
    returns (rows: seq<Row>, printerAfter: nat, nextAfter: nat)
    requires printerLine == start + next && next + count <= |lines|
    ensures rows == Run(lines, start, printerLine, printerLine + count)
    ensures printerAfter == printerLine + count && nextAfter == next + count
  {
    rows := [];
    printerAfter := printerLine;
    nextAfter := next;
    for k := 0 to count
      invariant printerAfter == printerLine + k && nextAfter == next + k
      invariant rows == Run(lines, start, printerLine, printerLine + k)
    {
      RunExtend(lines, start, printerLine, printerLine + k);
      rows := rows + [LineRow(printerAfter, lines[nextAfter])];
      printerAfter := printerAfter + 1;
      nextAfter := nextAfter + 1;
    }
  }

  lemma {:induction false} RunExtend(lines: seq<string>, start: nat, low: nat, high: nat)
    requires start <= low <= high < start + |lines|
    ensures Run(lines, start, low, high + 1) == Run(lines, start, low, high) + [LineRow(high, lines[high - start])]
    decreases high - low
  {
    if low < high {
      RunExtend(lines, start, low + 1, high);
    }
  }

  /**
   * One later range: a skip marker for the lines between the current line and the range,
   * which moves the printer's counter and the iterator on by as many, then the range's lines.
   */
  method PrintRange(lines: seq<string>, start: nat, currentLine: nat, printerLine: nat, next: nat, range: LineRange)
    returns (rows: seq<Row>, printerAfter: nat, nextAfter: nat)
    requires start <= currentLine < range.0 <= range.1 + 1 && range.1 < start + |lines|
    requires printerLine == currentLine + 1 && next == currentLine + 1 - start
    ensures rows == [SkipRow(range.0 - currentLine - 1)] + Run(lines, start, range.0, range.1 + 1)
    ensures printerAfter == range.1 + 1 && nextAfter == range.1 + 1 - start
  {
    var skip := range.0 - currentLine - 1;
    var current := currentLine + skip;
    var run;
    run, printerAfter, nextAfter := TakeLines(lines, start, printerLine + skip, next + skip, range.1 - current);
    rows := [SkipRow(skip)] + run;
  }

  /** The rows of the later ranges, one range at a time. */
  lemma LaterRowsStep(lines: seq<string>, start: nat, current: nat, later: seq<LineRange>, i: nat)
    requires start <= current && i < |later| && LaterFit(start + |lines|, current, later[i..])
    ensures LaterFit(start + |lines|, later[i].1, later[i + 1..])
    ensures LaterRows(lines, start, current, later[i..])
      == [SkipRow(later[i].0 - current - 1)] + Run(lines, start, later[i].0, later[i].1 + 1)
         + LaterRows(lines, start, later[i].1, later[i + 1..])
  {
    assert later[i..][1..] == later[i + 1..];
  }

  /**
   * The printing loop of a multi-line highlight: the first line, then the lines of the first
   * range, then for each later range a skip marker and its lines. The printer numbers each
   * line from its own counter, which a skip marker advances by the lines it hides, while the
   * lines come from an iterator over the highlight's lines that skips as many; the two stay
   * in step, so each line is shown with its own number.
   */
  method PrintLines(lines: seq<string>, start: nat, r: Ranges) returns (rows: seq<Row>)
    requires Fits(start, |lines|, r)
    ensures rows == Layout(lines, start, r)
  {
    rows := [LineRow(start, lines[0])];
    var run, printerLine, next := TakeLines(lines, start, start + 1, 1, r.first.1 - start);
    var later := PrintLater(lines, start, r.first.1, printerLine, next, Later(r));
    rows := rows + run + later;
  }

  /**
   * The loop over the later ranges: for each, a skip marker and its lines, with the printer's
   * line counter and the line iterator kept in step.
   */
  method PrintLater(lines: seq<string>, start: nat, current: nat, printerLine: nat, next: nat,
                    later: seq<LineRange>) returns (rows: seq<Row>)
    requires start <= current && printerLine == current + 1 && next == current + 1 - start
    requires LaterFit(start + |lines|, current, later)
    ensures rows == LaterRows(lines, start, current, later)
  {
    rows := [];
    var currentLine, printer, nextLine := current, printerLine, next;
    assert later[0..] == later;
    var i := 0;
    while i < |later|
      invariant 0 <= i <= |later|
      invariant start <= currentLine && printer == currentLine + 1 && nextLine == currentLine + 1 - start
      invariant LaterFit(start + |lines|, currentLine, later[i..])
      invariant rows + LaterRows(lines, start, currentLine, later[i..]) == LaterRows(lines, start, current, later)
    {
      LaterRowsStep(lines, start, currentLine, later, i);
      ghost var rest := LaterRows(lines, start, later[i].1, later[i + 1..]);
      var added;
      added, printer, nextLine := PrintRange(lines, start, currentLine, printer, nextLine, later[i]);
      assert rows + added + rest == rows + (added + rest);
      rows := rows + added;
      currentLine := later[i].1;
      i := i + 1;
    }
  }
}
