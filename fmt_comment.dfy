// Word wrapping of comment text for the formatter: an iterator hands out one line at a time,
// breaking at a newline, at the last whitespace that fits, or at the first whitespace after.
module CommentWrap {
  import opened Wrappers

  /** `char::is_whitespace`: the characters with Unicode's White_Space property. */
  predicate IsWhitespace(c: char) {
    ('\U{9}' <= c <= '\U{D}') || c == ' ' || c == '\U{85}' || c == '\U{A0}' || c == '\U{1680}'
    || ('\U{2000}' <= c <= '\U{200A}') || c == '\U{2028}' || c == '\U{2029}' || c == '\U{202F}'
    || c == '\U{205F}' || c == '\U{3000}'
  }

  /** Whitespace other than a line break, the characters `trim_line_start` drops. */
  predicate IsLineSpace(c: char) {
    c != '\n' && IsWhitespace(c)
  }

  /** The length of `s[..upto]` without its trailing whitespace. */
  function TrimmedLength(s: string, upto: nat): (r: nat)
    requires upto <= |s|
    ensures r <= upto
    ensures r == 0 || !IsWhitespace(s[r - 1])
    ensures forall i :: r <= i < upto ==> IsWhitespace(s[i])
  {
    if upto == 0 || !IsWhitespace(s[upto - 1]) then upto else TrimmedLength(s, upto - 1)
  }

  /** `trim_end`: without its trailing whitespace. */
  function TrimEnd(s: string): (r: string)
    ensures |r| <= |s| && s[..|r|] == r
    ensures |r| == 0 || !IsWhitespace(r[|r| - 1])
    ensures forall i :: |r| <= i < |s| ==> IsWhitespace(s[i])
  {
    s[..TrimmedLength(s, |s|)]
  }

  /** The index of the first character from `from` on that is not a space within a line. */
  function LineSpaceEnd(s: string, from: nat): (r: nat)
    requires from <= |s|
    ensures from <= r <= |s|
    ensures r == |s| || !IsLineSpace(s[r])
    ensures forall i :: from <= i < r ==> IsLineSpace(s[i])
    decreases |s| - from
  {
    if from == |s| || !IsLineSpace(s[from]) then from else LineSpaceEnd(s, from + 1)
  }

  /** Without its leading whitespace other than line breaks. */
  function TrimLineSpace(s: string): (r: string)
    ensures |r| <= |s| && r == s[|s| - |r|..]
    ensures |r| == 0 || !IsLineSpace(r[0])
    ensures forall i :: 0 <= i < |s| - |r| ==> IsLineSpace(s[i])
  {
    s[LineSpaceEnd(s, 0)..]
  }

  /**
   * `trim_line_start`: one leading line break dropped, then the spaces after it: what is
   * dropped is an optional line break followed by spaces within the line, and what is left
   * does not start with such a space.
   */
  function TrimLineStart(s: string): (r: string)
    ensures |r| <= |s| && r == s[|s| - |r|..]
    ensures |r| == 0 || !IsLineSpace(r[0])
    ensures forall i :: (if |s| > 0 && s[0] == '\n' then 1 else 0) <= i < |s| - |r| ==> IsLineSpace(s[i])
    ensures |s| > 0 && (s[0] == '\n' || IsLineSpace(s[0])) ==> |r| < |s|
  {
    if |s| > 0 && s[0] == '\n' then TrimLineSpace(s[1..]) else TrimLineSpace(s)
  }

  /**
   * `remove_doc_line_start`: the line's start trimmed, then a `*` and one space after it
   * dropped where present.
   */
  function RemoveDocLineStart(s: string): (r: string)
    ensures |r| <= |TrimLineStart(s)| && r == s[|s| - |r|..]
  {
    var t := TrimLineStart(s);
    var starless := if |t| > 0 && t[0] == '*' then t[1..] else t;
    if |starless| > 0 && starless[0] == ' ' then starless[1..] else starless
  }

  /**
   * A doc comment's line loses its leading `*` and the one space after it; a line without the
   * `*` keeps everything after its trimmed start, since that start is no space.
   */
  lemma DocLineStart(s: string)
    ensures var t := TrimLineStart(s);
      var r := RemoveDocLineStart(s);
      && (|t| > 0 && t[0] == '*' && |t| > 1 && t[1] == ' ' ==> r == t[2..])
      && (|t| > 0 && t[0] == '*' && (|t| == 1 || t[1] != ' ') ==> r == t[1..])
      && (|t| == 0 || t[0] != '*' ==> r == t)
  {
  }

  /** The index of the first character that is a line break or not whitespace. */
  function FindLineOrText(s: string): (r: Option<nat>)
    ensures r.Some? ==> r.value < |s| && (s[r.value] == '\n' || !IsWhitespace(s[r.value]))
    ensures forall i :: 0 <= i < (if r.Some? then r.value else |s|) ==> IsLineSpace(s[i])
  {
    if |s| == 0 then None
    else if s[0] == '\n' || !IsWhitespace(s[0]) then Some(0)
    else
      match FindLineOrText(s[1..])
      case None => None
      case Some(i) => Some(i + 1)
  }

  /**
   * `strip_doc_prefix`: the text of a doc comment, which opens with `*` followed by nothing
   * but spaces up to its first line break; `None` for any other comment.
   */
  function StripDocPrefix(s: string): (r: Option<string>)
    ensures r.Some? <==>
      |s| > 0 && s[0] == '*'
      && exists n :: 1 <= n < |s| && s[n] == '\n' && forall i :: 1 <= i < n ==> IsLineSpace(s[i])
    ensures r.Some? ==> exists n :: 1 <= n < |s| && s[n] == '\n' && r.value == s[n + 1..]
  {
    if |s| == 0 || s[0] != '*' then None
    else
      var rest := s[1..];
      match FindLineOrText(rest)
      case None => None
      case Some(i) => if rest[i] == '\n' then Some(rest[i + 1..]) else None
  }

  /** No line break among `text[from..upto]`. */
  predicate NoNewline(text: string, from: nat, upto: nat)
    requires from <= upto <= |text|
  {
    forall i :: from <= i < upto ==> text[i] != '\n'
  }

  /** No whitespace among `text[from..upto]`: a single word, or part of one. */
  predicate NoWhitespace(text: string, from: nat, upto: nat)
    requires from <= upto <= |text|
  {
    forall i :: from <= i < upto ==> !IsWhitespace(text[i])
  }

  /** `find('\n')` on `text[from..upto]`, as an index into `text`; `upto` when there is none. */
  function FirstNewline(text: string, from: nat, upto: nat): (r: nat)
    requires from <= upto <= |text|
    ensures from <= r <= upto
    ensures r < upto ==> text[r] == '\n'
    ensures NoNewline(text, from, r)
    decreases upto - from
  {
    if from == upto || text[from] == '\n' then from else FirstNewline(text, from + 1, upto)
  }

  /** `rfind(char::is_whitespace)` on `text[..upto]`. */
  function LastWhitespace(text: string, upto: nat): (r: Option<nat>)
    requires upto <= |text|
    ensures r.Some? ==> r.value < upto && IsWhitespace(text[r.value]) && NoWhitespace(text, r.value + 1, upto)
    ensures r.None? ==> NoWhitespace(text, 0, upto)
  {
    if upto == 0 then None
    else if IsWhitespace(text[upto - 1]) then Some(upto - 1)
    else LastWhitespace(text, upto - 1)
  }

  /** `find(char::is_whitespace)` on `text[from..]`, as an index into `text`; its length when there is none. */
  function FirstWhitespace(text: string, from: nat): (r: nat)
    requires from <= |text|
    ensures from <= r <= |text|
    ensures r < |text| ==> IsWhitespace(text[r])
    ensures NoWhitespace(text, from, r)
    decreases |text| - from
  {
    if from == |text| || IsWhitespace(text[from]) then from else FirstWhitespace(text, from + 1)
  }

  /** The break found by `next`: whether it is a line break, and where it is. */
  datatype Break = Break(isNewLine: bool, position: nat)

  /** How much of the text `next` looks at: one more than the columns, or all of it. */
  function Window(text: string, columns: nat): (n: nat)
    ensures n <= |text| && n <= columns + 1
    ensures n == |text| || n == columns + 1
  {
    if columns + 1 <= |text| then columns + 1 else |text|
  }

  /**
   * The break of `next`: the first line break among the first `columns + 1` characters; the
   * end of a text that fits in `columns`; else the last whitespace among those characters;
   * else the first whitespace after them; else the end.
   */
  function FindBreak(text: string, columns: nat): (b: Break)
    ensures b.position <= |text|
    ensures b.isNewLine ==> b.position < |text| && text[b.position] == '\n'
  {
    var maxEnd := Window(text, columns);
    var newline := FirstNewline(text, 0, maxEnd);
    if newline < maxEnd then Break(true, newline)
    else if |text| <= columns then Break(false, |text|)
    else
      match LastWhitespace(text, maxEnd)
      case Some(p) => Break(false, p)
      case None => Break(false, FirstWhitespace(text, maxEnd))
  }

  /**
   * Where `next` breaks, stated case by case: at the first line break when one lies among the
   * first `columns + 1` characters; otherwise at the end of a text that fits; otherwise at the
   * last whitespace among those characters; otherwise at the first whitespace after them, or
   * the end. In every case no line break lies before the break.
   */
  lemma BreakChosen(text: string, columns: nat)
    ensures var b := FindBreak(text, columns);
      && (b.isNewLine <==> !NoNewline(text, 0, Window(text, columns)))
      && NoNewline(text, 0, b.position)
      && (!b.isNewLine && |text| <= columns ==> b.position == |text|)
      && (!b.isNewLine && |text| > columns && !NoWhitespace(text, 0, columns + 1) ==>
            b.position <= columns && IsWhitespace(text[b.position])
            && NoWhitespace(text, b.position + 1, columns + 1))
      && (!b.isNewLine && |text| > columns && NoWhitespace(text, 0, columns + 1) ==>
            columns < b.position && (b.position == |text| || IsWhitespace(text[b.position]))
            && NoWhitespace(text, 0, b.position))
  {
    var maxEnd := Window(text, columns);
    var newline := FirstNewline(text, 0, maxEnd);
    var b := FindBreak(text, columns);
    if newline == maxEnd && |text| > columns {
      var last := LastWhitespace(text, maxEnd);
      if last.None? {
        var p := FirstWhitespace(text, maxEnd);
        assert NoWhitespace(text, 0, p);
      }
    }
  }

  /** The text after the break: its start trimmed, as a doc comment's line when `doc` holds. */
  function Remainder(remaining: string, doc: bool): (r: string)
    ensures |r| <= |remaining| && r == remaining[|remaining| - |r|..]
    ensures |remaining| > 0 && (remaining[0] == '\n' || IsLineSpace(remaining[0])) ==> |r| < |remaining|
  {
    if doc then RemoveDocLineStart(remaining) else TrimLineStart(remaining)
  }

  /**
   * One step of `next` on the remaining text: the line up to the break with its trailing
   * whitespace trimmed, and the text after it with its start trimmed; after a line break in a
   * doc comment, the `*` that starts the next line goes too.
   */
  function NextLine(text: string, columns: nat, isDocComment: bool): (r: (string, string))
    ensures |r.1| <= |text| - FindBreak(text, columns).position
    ensures r.1 == text[|text| - |r.1|..]
  {
    var b := FindBreak(text, columns);
    SplitAtBreak(text, b.position, b.isNewLine && isDocComment)
  }

  /** The text split at `p`: the part before it right-trimmed, the part after it start-trimmed. */
  function SplitAtBreak(text: string, p: nat, doc: bool): (r: (string, string))
    requires p <= |text|
    ensures |r.1| <= |text| - p && r.1 == text[|text| - |r.1|..]
  {
    var remaining := text[p..];
    var rest := Remainder(remaining, doc);
    SuffixOfSuffix(text, p, remaining, rest);
    (TrimEnd(text[..p]), rest)
  }

  /** A suffix of a suffix of `text` is a suffix of `text`. */
  lemma SuffixOfSuffix(text: string, p: nat, remaining: string, rest: string)
    requires p <= |text| && remaining == text[p..]
    requires |rest| <= |remaining| && rest == remaining[|remaining| - |rest|..]
    ensures |rest| <= |text| - p && rest == text[|text| - |rest|..]
  {
    assert forall i :: 0 <= i < |rest| ==> rest[i] == text[|text| - |rest| + i];
  }

  /** A line no wider than the columns, or else a single word. */
  predicate Fits(line: string, columns: nat) {
    |line| <= columns || NoWhitespace(line, 0, |line|)
  }

  /** A line as the iterator hands it out: no line break, and fitting the columns. */
  predicate WellWrapped(line: string, columns: nat) {
    Fits(line, columns) && NoNewline(line, 0, |line|)
  }

  /** The text before a break, right-trimmed, keeps what is known of the text before the break. */
  lemma LineBeforeBreak(text: string, position: nat)
    requires position <= |text| && NoNewline(text, 0, position)
    ensures var line := TrimEnd(text[..position]);
      && |line| <= position && text[..|line|] == line
      && NoNewline(line, 0, |line|)
      && (NoWhitespace(text, 0, position) ==> NoWhitespace(line, 0, |line|))
  {
    var line := TrimEnd(text[..position]);
    assert forall k :: 0 <= k < |line| ==> line[k] == text[k];
  }

  /**
   * What a line handed out is: a prefix of the text with no line break and no trailing
   * whitespace, fitting the columns unless it is a single wider word.
   */
  lemma NextLineShape(text: string, columns: nat, isDocComment: bool)
    ensures var line := NextLine(text, columns, isDocComment).0;
      && |line| <= |text| && text[..|line|] == line
      && (|line| == 0 || !IsWhitespace(line[|line| - 1]))
      && WellWrapped(line, columns)
  {
    var b := FindBreak(text, columns);
    BreakChosen(text, columns);
    LineBeforeBreak(text, b.position);
  }

  /** The text that remains after a line is handed out is strictly shorter. */
  lemma NextLineShortens(text: string, columns: nat, isDocComment: bool)
    ensures |text| > 0 ==> |NextLine(text, columns, isDocComment).1| < |text|
  {
    var b := FindBreak(text, columns);
    if |text| > 0 && b.position == 0 {
      BreakChosen(text, columns);
      var remaining := text[b.position..];
      assert remaining[0] == text[0];
      if !b.isNewLine {
        assert !NoWhitespace(text, 0, columns + 1);
      }
    }
  }

  /**
   * The text an iterator starts from: the start trimmed as a doc comment's line or a plain
   * line, then the end trimmed.
   */
  function InitialText(text: string, isDocComment: bool): (r: string)
    ensures |r| <= |text| && (|r| == 0 || !IsWhitespace(r[|r| - 1]))
  {
    TrimEnd(if isDocComment then RemoveDocLineStart(text) else TrimLineStart(text))
  }

  /** A plain text with no whitespace at either end is wrapped as it is. */
  lemma InitialTextKeeps(text: string)
    requires |text| > 0 && !IsWhitespace(text[0]) && !IsWhitespace(text[|text| - 1])
    ensures InitialText(text, false) == text
  {
    assert LineSpaceEnd(text, 0) == 0;
    assert text[0..] == text;
    TrimEndKeeps(text);
  }

  /**
   * `TextWrapIter`: the text still to wrap, `None` once it is used up, and whether it is a
   * doc comment.
   */
  class TextWrapIter {
    var text: Option<string>
    var isDocComment: bool

    /** `new`: the text to wrap, trimmed at both ends. */
    constructor(text: string, isDocComment: bool)
      ensures this.isDocComment == isDocComment
      ensures this.text == Some(InitialText(text, isDocComment))
    {
      this.text := Some(InitialText(text, isDocComment));
      this.isDocComment := isDocComment;
    }

    /** `is_done`. */
    predicate IsDone()
      reads this
    {
      text.None?
    }

    /**
     * `next`: nothing once the text is used up; otherwise the next line, keeping the rest of
     * the text unless it is empty.
     */
    method Next(columns: nat) returns (line: Option<string>)
      modifies this
      ensures old(text).None? ==> line.None? && text.None?
      ensures old(text).Some? ==>
        var r := NextLine(old(text).value, columns, isDocComment);
        line == Some(r.0) && text == (if |r.1| == 0 then None else Some(r.1))
      ensures isDocComment == old(isDocComment)
    {
      if text.None? {
        return None;
      }
      var r := NextLine(text.value, columns, isDocComment);
      text := if |r.1| == 0 then None else Some(r.1);
      line := Some(r.0);
    }
  }

  /** Every line an iterator made for `text` hands out when asked with the same columns each time. */
  function Wrap(text: string, columns: nat, isDocComment: bool): seq<string> {
    WrapLines(InitialText(text, isDocComment), columns, isDocComment)
  }

  /** Every line the iterator hands out from its current text, asked with the same columns each time. */
  function WrapLines(text: string, columns: nat, isDocComment: bool): (lines: seq<string>)
    decreases |text|
  {
    NextLineShortens(text, columns, isDocComment);
    var r := NextLine(text, columns, isDocComment);
    if |r.1| == 0 then [r.0] else [r.0] + WrapLines(r.1, columns, isDocComment)
  }

  /** The lines of a text are its first line, then the lines of what remains after it. */
  lemma WrapStep(text: string, columns: nat, isDocComment: bool)
    ensures var r := NextLine(text, columns, isDocComment);
      WrapLines(text, columns, isDocComment) == [r.0] + (if |r.1| == 0 then [] else WrapLines(r.1, columns, isDocComment))
  {
  }

  /** Every line in `lines` is well wrapped. */
  predicate AllWellWrapped(lines: seq<string>, columns: nat) {
    forall k :: 0 <= k < |lines| ==> WellWrapped(lines[k], columns)
  }

  /** Putting a well-wrapped line in front keeps every line well wrapped. */
  lemma PrependWellWrapped(line: string, later: seq<string>, columns: nat)
    requires WellWrapped(line, columns) && AllWellWrapped(later, columns)
    ensures AllWellWrapped([line] + later, columns)
  {
    var lines := [line] + later;
    forall k | 0 <= k < |lines|
      ensures WellWrapped(lines[k], columns)
    {
      if k > 0 {
        assert lines[k] == later[k - 1];
      }
    }
  }

  /** Each line handed out holds no line break and fits the columns, unless it is one wider word. */
  lemma {:induction false} WrappedLinesFit(text: string, columns: nat, isDocComment: bool)
    ensures AllWellWrapped(WrapLines(text, columns, isDocComment), columns)
    decreases |text|
  {
    NextLineShape(text, columns, isDocComment);
    var r := NextLine(text, columns, isDocComment);
    if |r.1| > 0 {
      WrappedLinesFit(r.1, columns, isDocComment);
      PrependWellWrapped(r.0, WrapLines(r.1, columns, isDocComment), columns);
    } else {
      PrependWellWrapped(r.0, [], columns);
      assert [r.0] + [] == [r.0];
    }
  }

  /** A word: at least one character, none of them whitespace. */
  predicate IsWord(w: string) {
    |w| > 0 && NoWhitespace(w, 0, |w|)
  }

  /** A line with no whitespace at either end keeps every character when the end is trimmed. */
  lemma TrimEndKeeps(line: string)
    requires |line| > 0 && !IsWhitespace(line[|line| - 1])
    ensures TrimEnd(line) == line
  {
  }

  /** A single space before text that starts with no whitespace is all the start trimming drops. */
  lemma TrimLineStartSpace(rest: string)
    requires |rest| > 0 && !IsWhitespace(rest[0])
    ensures TrimLineStart(" " + rest) == rest
    ensures RemoveDocLineStart(" " + rest) == (if rest[0] == '*' then RemoveDocLineStart(rest) else rest)
  {
    var s := " " + rest;
    assert LineSpaceEnd(s, 1) == 1;
    assert s[1..] == rest;
    if rest[0] == '*' {
      assert TrimLineStart(rest) == rest by {
        assert LineSpaceEnd(rest, 0) == 0;
      }
    }
  }

  /**
   * A line that fits the columns, followed by a space and by a word that reaches past the
   * columns, is handed out whole: the space is the last whitespace within the limit.
   */
  lemma FillsLine(line: string, rest: string, columns: nat, isDocComment: bool)
    requires |line| > 0 && !IsWhitespace(line[|line| - 1]) && |line| <= columns
    requires NoNewline(line, 0, |line|)
    requires |rest| > 0 && !IsWhitespace(rest[0])
    requires columns - |line| <= |rest| && NoWhitespace(rest, 0, columns - |line|)
    ensures NextLine(line + " " + rest, columns, isDocComment) == (line, rest)
  {
    var text := line + " " + rest;
    assert forall i :: 0 <= i < |line| ==> text[i] == line[i];
    assert forall i :: |line| < i < |text| ==> text[i] == rest[i - |line| - 1];
    BreakChosen(text, columns);
    var b := FindBreak(text, columns);
    assert text[|line|] == ' ';
    assert NoNewline(text, 0, columns + 1);
    assert !NoWhitespace(text, 0, columns + 1);
    assert b.position == |line|;
    assert text[..|line|] == line;
    TrimEndKeeps(line);
    assert text[|line|..] == " " + rest;
    TrimLineStartSpace(rest);
  }

  /** A text that fits the columns with no line break is handed out whole, as the last line. */
  lemma LastLine(line: string, columns: nat, isDocComment: bool)
    requires |line| > 0 && !IsWhitespace(line[|line| - 1]) && |line| <= columns
    requires NoNewline(line, 0, |line|)
    ensures NextLine(line, columns, isDocComment) == (line, "")
  {
    BreakChosen(line, columns);
    assert line[..|line|] == line;
    TrimEndKeeps(line);
  }

  /** With no columns, a word followed by a space and more words is handed out on its own. */
  lemma WordAlone(w: string, rest: string, isDocComment: bool)
    requires IsWord(w) && |rest| > 0 && !IsWhitespace(rest[0])
    ensures NextLine(w + " " + rest, 0, isDocComment) == (w, rest)
  {
    var text := w + " " + rest;
    BreakChosen(text, 0);
    var b := FindBreak(text, 0);
    assert text[0] == w[0];
    assert text[|w|] == ' ';
    assert b.position == |w|;
    assert text[..|w|] == w;
    TrimEndKeeps(w);
    assert text[|w|..] == " " + rest;
    TrimLineStartSpace(rest);
  }

  /** With no columns, a lone word is handed out whole, as the last line. */
  lemma LastWordAlone(w: string, isDocComment: bool)
    requires IsWord(w)
    ensures NextLine(w, 0, isDocComment) == (w, "")
  {
    BreakChosen(w, 0);
    var b := FindBreak(w, 0);
    assert b.position == |w|;
    assert w[..|w|] == w;
    TrimEndKeeps(w);
  }

  /** Words joined by single spaces. */
  function JoinWords(words: seq<string>): (text: string)
    requires |words| > 0
    ensures |text| >= |words[0]| && text[..|words[0]|] == words[0]
    ensures |text| >= |words[|words| - 1]|
    ensures |words[|words| - 1]| > 0 ==> text[|text| - 1] == words[|words| - 1][|words[|words| - 1]| - 1]
  {
    if |words| == 1 then words[0] else words[0] + " " + JoinWords(words[1..])
  }

  /** A non-empty sequence is its head followed by its tail. */
  lemma HeadTail(words: seq<string>)
    requires |words| > 0
    ensures words == [words[0]] + words[1..]
  {
  }

  /** With no columns, every word of a text of words joined by single spaces is a line of its own. */
  lemma {:induction false} OneWordPerLine(words: seq<string>, isDocComment: bool)
    requires |words| > 0 && forall k :: 0 <= k < |words| ==> IsWord(words[k])
    ensures WrapLines(JoinWords(words), 0, isDocComment) == words
  {
    if |words| == 1 {
      LastWordAlone(words[0], isDocComment);
    } else {
      var later := words[1..];
      assert forall k :: 0 <= k < |later| ==> later[k] == words[k + 1];
      var rest := JoinWords(later);
      assert IsWord(later[0]);
      assert rest[0] == later[0][0];
      WordAlone(words[0], rest, isDocComment);
      OneWordPerLine(later, isDocComment);
      assert JoinWords(words) == words[0] + " " + rest;
      WrapStep(words[0] + " " + rest, 0, isDocComment);
      HeadTail(words);
    }
  }

  /** A line the greedy wrap can produce: no whitespace at either end, no line break, fitting the columns. */
  predicate FullLine(line: string, columns: nat) {
    |line| > 0 && !IsWhitespace(line[0]) && !IsWhitespace(line[|line| - 1]) && |line| <= columns
    && NoNewline(line, 0, |line|)
  }

  /** The first word of `next` does not fit on `line` after a space. */
  predicate NoRoomFor(line: string, next: string, columns: nat) {
    |line| <= columns && columns - |line| <= |next| && NoWhitespace(next, 0, columns - |line|)
  }

  /** The first of several full lines is handed out first, when the next one's first word would not fit. */
  lemma GreedyHead(lines: seq<string>, columns: nat, isDocComment: bool)
    requires |lines| > 1 && FullLine(lines[0], columns) && FullLine(lines[1], columns)
    requires NoRoomFor(lines[0], lines[1], columns)
    ensures NextLine(JoinWords(lines), columns, isDocComment) == (lines[0], JoinWords(lines[1..]))
  {
    var later := lines[1..];
    var rest := JoinWords(later);
    assert later[0] == lines[1];
    assert forall i :: 0 <= i < |lines[1]| ==> rest[i] == lines[1][i];
    FillsLine(lines[0], rest, columns, isDocComment);
  }

  /**
   * Greedy filling: lines joined by single spaces come back as the same lines when each one
   * fits and the first word of the next never would.
   */
  lemma {:induction false} GreedyLines(lines: seq<string>, columns: nat, isDocComment: bool)
    requires |lines| > 0 && forall k :: 0 <= k < |lines| ==> FullLine(lines[k], columns)
    requires forall k :: 0 <= k < |lines| - 1 ==> NoRoomFor(lines[k], lines[k + 1], columns)
    ensures WrapLines(JoinWords(lines), columns, isDocComment) == lines
  {
    if |lines| == 1 {
      LastLine(lines[0], columns, isDocComment);
    } else {
      var later := lines[1..];
      assert forall k :: 0 <= k < |later| ==> later[k] == lines[k + 1];
      GreedyHead(lines, columns, isDocComment);
      GreedyLines(later, columns, isDocComment);
      WrapStep(JoinWords(lines), columns, isDocComment);
      HeadTail(lines);
    }
  }

  /** Words or lines joined by single spaces are wrapped as they are joined. */
  lemma JoinedKeeps(words: seq<string>)
    requires |words| > 0 && |words[0]| > 0 && !IsWhitespace(words[0][0])
    requires |words[|words| - 1]| > 0 && !IsWhitespace(words[|words| - 1][|words[|words| - 1]| - 1])
    ensures InitialText(JoinWords(words), false) == JoinWords(words)
  {
    InitialTextKeeps(JoinWords(words));
  }

  /** The lines the formatter's test expects from its sentence at 20 columns. */
  const TestLines: seq<string> := ["0 1 2 3 4 5 6 7 8", "9 This comment is", "over 20 columns", "wide"]

  /** Each expected line is a full line of 17 columns. */
  lemma TestLinesFull(lines: seq<string>)
    requires lines == TestLines
    ensures forall k :: 0 <= k < |lines| ==> FullLine(lines[k], 17)
  {
    forall k | 0 <= k < |lines|
      ensures FullLine(lines[k], 17)
    {
      assert k == 0 || k == 1 || k == 2 || k == 3;
    }
  }

  /** No expected line has room for the first word of the next. */
  lemma TestLinesGreedy(lines: seq<string>)
    requires lines == TestLines
    ensures forall k :: 0 <= k < |lines| - 1 ==> NoRoomFor(lines[k], lines[k + 1], 17)
  {
    forall k | 0 <= k < |lines| - 1
      ensures NoRoomFor(lines[k], lines[k + 1], 17)
    {
      assert k == 0 || k == 1 || k == 2;
    }
  }

  /** A 20-column writer leaves 17 columns after `// `: the test sentence fills greedy lines. */
  lemma SingleLineWrapping(lines: seq<string>)
    requires lines == TestLines
    ensures Wrap(JoinWords(lines), 17, false) == lines
  {
    TestLinesFull(lines);
    TestLinesGreedy(lines);
    assert FullLine(lines[0], 17) && FullLine(lines[|lines| - 1], 17);
    JoinedKeeps(lines);
    GreedyLines(lines, 17, false);
  }

  /** With no columns left, the test sentence comes out one word per line. */
  lemma SingleLineNoColumn(words: seq<string>)
    requires words == ["Hello", "world,", "this", "is", "some", "text"]
    ensures Wrap(JoinWords(words), 0, false) == words
  {
    forall k | 0 <= k < |words|
      ensures IsWord(words[k])
    {
      assert k == 0 || k == 1 || k == 2 || k == 3 || k == 4 || k == 5;
    }
    JoinedKeeps(words);
    OneWordPerLine(words, false);
  }
}
