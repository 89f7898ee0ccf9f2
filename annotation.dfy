// The index arithmetic behind source annotations: which line holds a character, where that
// line starts, and the data a highlighted range is displayed from, on one line or several.
module Annotations {
  /** No `'\n'` among `text[from..to]`. */
  predicate NoNewline(text: string, from: nat, to: nat)
    requires from <= to <= |text|
  {
    forall i :: from <= i < to ==> text[i] != '\n'
  }

  /** How many `'\n'`s come before `index`. */
  function NewlinesBefore(text: string, index: nat): (r: nat)
    requires index <= |text|
    ensures r <= index
  {
    if index == 0 then 0
    else NewlinesBefore(text, index - 1) + (if text[index - 1] == '\n' then 1 else 0)
  }

  /** Between two indices the count grows by the `'\n'`s between them, and only by those. */
  lemma {:induction false} NewlinesBetween(text: string, i: nat, j: nat)
    requires i <= j <= |text|
    ensures NewlinesBefore(text, i) <= NewlinesBefore(text, j)
    ensures NewlinesBefore(text, i) == NewlinesBefore(text, j) <==> NoNewline(text, i, j)
    decreases j - i
  {
    if i < j {
      NewlinesBetween(text, i, j - 1);
    }
  }

  /** The index just after the last `'\n'` before `index`, or 0 when there is none. */
  function LineStart(text: string, index: nat): (r: nat)
    requires index <= |text|
    ensures r <= index
    ensures r > 0 ==> text[r - 1] == '\n'
    ensures NoNewline(text, r, index)
  {
    if index == 0 then 0
    else if text[index - 1] == '\n' then index
    else LineStart(text, index - 1)
  }

  /**
   * `get_line_containing`: the 1-based number of the line holding `index`, and the index
   * where that line starts.
   */
  function LineContaining(index: nat, text: string): (r: (nat, nat))
    requires index <= |text|
    ensures r.0 >= 1 && r.1 <= index
    ensures r.1 == 0 || text[r.1 - 1] == '\n'
    ensures NoNewline(text, r.1, index)
  {
    (NewlinesBefore(text, index) + 1, LineStart(text, index))
  }

  /** The line number counts the `'\n'`s before the line's start: none lies after it. */
  lemma LineNumberCounts(index: nat, text: string)
    requires index <= |text|
    ensures var r := LineContaining(index, text);
      r.0 == 1 + NewlinesBefore(text, r.1)
  {
    NewlinesBetween(text, LineContaining(index, text).1, index);
  }

  /** Two indices are on the same line exactly when no `'\n'` lies between them. */
  lemma SameLine(text: string, i: nat, j: nat)
    requires i <= j <= |text|
    ensures LineContaining(i, text).0 == LineContaining(j, text).0 <==> NoNewline(text, i, j)
    ensures LineContaining(i, text).0 <= LineContaining(j, text).0
  {
    NewlinesBetween(text, i, j);
  }

  /** The line holding a later index does not start before the line holding an earlier one. */
  lemma LineStartsOrdered(text: string, i: nat, j: nat)
    requires i <= j <= |text|
    ensures LineContaining(i, text).1 <= LineContaining(j, text).1
  {
  }

  /**
   * `find('\n')` on the text from `start`: the index of the line's `'\n'`, or the end of the
   * text.
   */
  function LineEnd(text: string, start: nat): (r: nat)
    requires start <= |text|
    ensures start <= r <= |text|
    ensures r == |text| || text[r] == '\n'
    ensures NoNewline(text, start, r)
    decreases |text| - start
  {
    if start == |text| || text[start] == '\n' then start
    else LineEnd(text, start + 1)
  }

  /** `col` is the column of `index`: the characters before it on its line. */
  predicate Column(text: string, index: nat, col: nat)
    requires index <= |text|
  {
    col <= index && NoNewline(text, index - col, index) && (index - col == 0 || text[index - col - 1] == '\n')
  }

  datatype FormatData =
    | SingleLine(line: string, lineNumber: nat, lineHighlight: (nat, nat))
    | MultiLine(lines: string, lineNumbers: (nat, nat), mustBeVisibleLineNumbers: (nat, nat),
                firstLineHighlight: nat, lastLineHighlight: nat)

  /** `line_numbers`: first and last line shown, both included. */
  function LineNumbers(f: FormatData): (nat, nat) {
    match f
    case SingleLine(_, n, _) => (n, n)
    case MultiLine(_, ns, _, _, _) => ns
  }

  /** `usize::saturating_sub(1)`. */
  function Pred(n: nat): nat {
    if n == 0 then 0 else n - 1
  }

  /**
   * `new_single_line`: the whole line holding the start of the highlight, its number, and
   * the highlight made relative to the line; a highlight without `'\n'` is the same text in
   * the line.
   */
  function NewSingleLine(text: string, highlight: (nat, nat)): (r: FormatData)
    requires highlight.0 <= highlight.1 <= |text|
    ensures r.SingleLine? && r.lineNumber == LineContaining(highlight.0, text).0
    ensures '\n' !in r.line
    ensures var start := LineContaining(highlight.0, text).1;
      && start + |r.line| <= |text| && text[start..start + |r.line|] == r.line
      && (start + |r.line| == |text| || text[start + |r.line|] == '\n')
      && Column(text, highlight.0, r.lineHighlight.0)
    ensures NoNewline(text, highlight.0, highlight.1) ==>
      r.lineHighlight.0 <= r.lineHighlight.1 <= |r.line|
      && r.line[r.lineHighlight.0..r.lineHighlight.1] == text[highlight.0..highlight.1]
  {
    var line := LineContaining(highlight.0, text);
    var end := LineEnd(text, line.1);
    HighlightInLine(text, highlight, line.1, end);
    SingleLine(text[line.1..end], line.0, (highlight.0 - line.1, highlight.1 - line.1))
  }

  /** A highlight without `'\n'` that starts on a line ends on it too. */
  lemma HighlightInLine(text: string, highlight: (nat, nat), start: nat, end: nat)
    requires start <= highlight.0 <= highlight.1 <= |text| && highlight.0 <= end <= |text|
    requires end == |text| || text[end] == '\n'
    requires NoNewline(text, start, end)
    ensures '\n' !in text[start..end]
    ensures NoNewline(text, highlight.0, highlight.1) ==>
      highlight.1 <= end && text[start..end][highlight.0 - start..highlight.1 - start] == text[highlight.0..highlight.1]
  {
    if NoNewline(text, highlight.0, highlight.1) {
      if end < highlight.1 {
        assert false;
      }
      SliceOfSlice(text, start, end, highlight.0, highlight.1);
    }
  }

  /** A slice taken inside a slice is the slice of the whole text at the shifted bounds. */
  lemma SliceOfSlice(text: string, start: nat, end: nat, from: nat, to: nat)
    requires start <= from <= to <= end <= |text|
    ensures text[start..end][from - start..to - start] == text[from..to]
  {
    assert forall k :: 0 <= k < to - from ==> text[start..end][from - start..to - start][k] == text[from..to][k];
  }

  /**
   * `new_multi_line`: the lines from the one holding the first highlighted character to the
   * one holding the last, their numbers, the numbers of the lines that must stay visible,
   * and the columns of the first and the last highlighted character on their lines.
   */
  function NewMultiLine(text: string, highlight: (nat, nat), visible: (nat, nat)): (r: FormatData)
    requires highlight.0 < highlight.1 <= |text|
    requires visible.0 <= |text| && Pred(visible.1) <= |text|
    ensures r.MultiLine?
    ensures r.lineNumbers == (LineContaining(highlight.0, text).0, LineContaining(highlight.1 - 1, text).0)
    ensures r.mustBeVisibleLineNumbers == (LineContaining(visible.0, text).0, LineContaining(Pred(visible.1), text).0)
    ensures Column(text, highlight.0, r.firstLineHighlight)
    ensures Column(text, highlight.1 - 1, r.lastLineHighlight)
    ensures var start := highlight.0 - r.firstLineHighlight;
      && highlight.1 - 1 <= start + |r.lines| <= |text| && r.lines == text[start..start + |r.lines|]
      && (start + |r.lines| == |text| || text[start + |r.lines|] == '\n')
  {
    var first := LineContaining(highlight.0, text);
    var last := LineContaining(highlight.1 - 1, text);
    var end := LineEnd(text, last.1);
    MultiLine(text[first.1..end], (first.0, last.0),
              (LineContaining(visible.0, text).0, LineContaining(Pred(visible.1), text).0),
              highlight.0 - first.1, highlight.1 - 1 - last.1)
  }

  /** `FormatData::new`: several lines exactly when the highlighted text holds a `'\n'`. */
  function NewFormatData(text: string, highlight: (nat, nat), visible: (nat, nat)): (r: FormatData)
    requires highlight.0 <= highlight.1 <= |text|
    requires !NoNewline(text, highlight.0, highlight.1) ==> visible.0 <= |text| && Pred(visible.1) <= |text|
    ensures r.MultiLine? <==> !NoNewline(text, highlight.0, highlight.1)
    ensures r.MultiLine? ==> r.lineNumbers.0 <= r.lineNumbers.1
  {
    if !NoNewline(text, highlight.0, highlight.1) then
      var r := NewMultiLine(text, highlight, visible);
      SameLine(text, highlight.0, highlight.1 - 1);
      r
    else NewSingleLine(text, highlight)
  }

  /**
   * Unless the highlight ends with its `'\n'`, it is shown on several lines exactly when its
   * first and last characters are on different lines.
   */
  lemma MultiLineSpansLines(text: string, highlight: (nat, nat))
    requires highlight.0 < highlight.1 <= |text|
    requires text[highlight.1 - 1] != '\n'
    ensures !NoNewline(text, highlight.0, highlight.1) <==>
      LineContaining(highlight.0, text).0 < LineContaining(highlight.1 - 1, text).0
  {
    SameLine(text, highlight.0, highlight.1 - 1);
    assert NoNewline(text, highlight.0, highlight.1) <==> NoNewline(text, highlight.0, highlight.1 - 1);
  }

  /** The gutter's width comes from the largest last line number shown, or 0 with none. */
  function MaxLineNumber(data: seq<FormatData>): (r: nat)
    ensures forall i :: 0 <= i < |data| ==> LineNumbers(data[i]).1 <= r
    ensures |data| == 0 ==> r == 0
    ensures |data| > 0 ==> exists i :: 0 <= i < |data| && r == LineNumbers(data[i]).1
  {
    if |data| == 0 then 0
    else
      var rest := MaxLineNumber(data[1..]);
      var here := LineNumbers(data[0]).1;
      assert forall i :: 1 <= i < |data| ==> data[i] == data[1..][i - 1];
      if here >= rest then here else rest
  }
}
