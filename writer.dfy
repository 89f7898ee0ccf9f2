// The formatter's output buffer: finished lines, the line being written, and how many columns
// that line has left before the column limit.
module Writers {
  import opened Wrappers
  import opened CommentWrap

  /** The part of the formatting options the writer reads. */
  datatype Format = Format(columnLimit: nat, indent: string)

  /** `WriteConfig`: whether breaking a line is forbidden, and the indentation depth. */
  datatype WriteConfig = WriteConfig(isSingleLine: bool, indentDepth: nat)

  /** `str::repeat`. */
  function Repeat(s: string, n: nat): (r: string)
    ensures |r| == |s| * n
  {
    if n == 0 then "" else Repeat(s, n - 1) + s
  }

  /** Nothing but whitespace: `trim().is_empty()`. */
  predicate Blank(s: string) {
    forall i :: 0 <= i < |s| ==> IsWhitespace(s[i])
  }

  /**
   * A piece of formatting run against a writer: the writer's own operations, and the two
   * configuration changes that wrap a nested piece.
   */
  datatype Action =
    | Write(text: string)
    | WriteNewLine
    | EmptyLine
    | WriteSpace
    | SingleLine(body: seq<Action>)
    | Indented(body: seq<Action>)

  /** The writer's fields as a value: finished lines, the current line, its columns left, and the configuration. */
  datatype WriterState = WriterState(lines: seq<string>, currentLine: string, remainingColumns: int, config: WriteConfig)

  /** The columns left are the limit less what the current line holds. */
  predicate ValidState(f: Format, s: WriterState) {
    s.remainingColumns == f.columnLimit - |s.currentLine|
  }

  /** `write_new_line` on a value: refused on a single-line writer. */
  function NewLineState(f: Format, s: WriterState): Option<WriterState> {
    if s.config.isSingleLine then None
    else
      var indent := Repeat(f.indent, s.config.indentDepth);
      Some(WriterState(s.lines + [s.currentLine], indent, f.columnLimit - |indent|, s.config))
  }

  /**
   * One action run from `s`: the new state, or none once the writer has failed. A nested
   * piece runs under its changed configuration, and the original one is restored after it.
   */
  function RunOne(f: Format, s: WriterState, a: Action): Option<WriterState>
    decreases a, 1
  {
    match a
    case Write(text) =>
      var t := s.(currentLine := s.currentLine + text, remainingColumns := s.remainingColumns - |text|);
      if s.config.isSingleLine && t.remainingColumns < 0 then None else Some(t)
    case WriteNewLine => NewLineState(f, s)
    case EmptyLine => if Blank(s.currentLine) then Some(s) else NewLineState(f, s)
    case WriteSpace =>
      var c := s.currentLine;
      if |c| == 0 || IsWhitespace(c[|c| - 1]) then Some(s)
      else Some(s.(currentLine := c + " ", remainingColumns := s.remainingColumns - 1))
    case SingleLine(body) => RunWith(f, s, s.config.(isSingleLine := true), body)
    case Indented(body) => RunWith(f, s, s.config.(indentDepth := s.config.indentDepth + 1), body)
  }

  /** `with_config`: the body runs under `config`, and on success the original configuration is back. */
  function RunWith(f: Format, s: WriterState, config: WriteConfig, body: seq<Action>): Option<WriterState>
    decreases body, 2
  {
    match RunAll(f, s.(config := config), body)
    case None => None
    case Some(t) => Some(t.(config := s.config))
  }

  /** The actions in order, stopping at the first that fails. */
  function RunAll(f: Format, s: WriterState, actions: seq<Action>): Option<WriterState>
    decreases actions, 0
  {
    if actions == [] then Some(s)
    else
      match RunOne(f, s, actions[0])
      case None => None
      case Some(t) => RunAll(f, t, actions[1..])
  }

  /** Running the actions one by one: what is left after `i` of them picks up where they stopped. */
  lemma RunAllStep(f: Format, s: WriterState, actions: seq<Action>, i: nat)
    requires i < |actions|
    ensures RunAll(f, s, actions[i..]) ==
      match RunOne(f, s, actions[i])
      case None => None
      case Some(t) => RunAll(f, t, actions[i + 1..])
  {
    assert actions[i..][1..] == actions[i + 1..];
  }

  /**
   * A run that succeeds keeps the configuration, only appends finished lines, and keeps the
   * column count in step with the current line.
   */
  lemma {:induction false} RunOneKeeps(f: Format, s: WriterState, a: Action)
    requires RunOne(f, s, a).Some?
    ensures var t := RunOne(f, s, a).value;
      && t.config == s.config
      && |t.lines| >= |s.lines| && t.lines[..|s.lines|] == s.lines
      && (ValidState(f, s) ==> ValidState(f, t))
    decreases a, 1
  {
    match a
    case SingleLine(body) => RunAllKeeps(f, s.(config := s.config.(isSingleLine := true)), body);
    case Indented(body) => RunAllKeeps(f, s.(config := s.config.(indentDepth := s.config.indentDepth + 1)), body);
    case _ =>
  }

  /** The same for a sequence of actions. */
  lemma {:induction false} RunAllKeeps(f: Format, s: WriterState, actions: seq<Action>)
    requires RunAll(f, s, actions).Some?
    ensures var t := RunAll(f, s, actions).value;
      && t.config == s.config
      && |t.lines| >= |s.lines| && t.lines[..|s.lines|] == s.lines
      && (ValidState(f, s) ==> ValidState(f, t))
    decreases actions, 0
  {
    if actions != [] {
      var t1 := RunOne(f, s, actions[0]).value;
      RunOneKeeps(f, s, actions[0]);
      RunAllKeeps(f, t1, actions[1..]);
      var t := RunAll(f, s, actions).value;
      assert t.lines[..|s.lines|] == t.lines[..|t1.lines|][..|s.lines|];
    }
  }

  /** `to_string`: each finished line right-trimmed and ended by `'\n'`, then the current line right-trimmed. */
  function Render(lines: seq<string>, current: string): string {
    if |lines| == 0 then TrimEnd(current) else TrimEnd(lines[0]) + "\n" + Render(lines[1..], current)
  }

  class Writer {
    const format: Format
    var lines: seq<string>
    var currentLine: string
    var remainingColumns: int
    var config: WriteConfig

    /** The fields as a value. */
    function State(): WriterState
      reads this
    {
      WriterState(lines, currentLine, remainingColumns, config)
    }

    /** The columns left are the limit less what the current line holds. */
    ghost predicate Valid()
      reads this
    {
      remainingColumns == format.columnLimit - |currentLine|
    }

    /** `new`: no lines, an empty current line with every column left, and line breaks allowed. */
    constructor(format: Format)
      ensures this.format == format
      ensures lines == [] && currentLine == "" && remainingColumns == format.columnLimit
      ensures config == WriteConfig(false, 0)
      ensures Valid()
    {
      this.format := format;
      lines := [];
      currentLine := "";
      remainingColumns := format.columnLimit;
      config := WriteConfig(false, 0);
    }

    /** `remaining_columns`: the columns left, or none once the line has overflowed. */
    function RemainingColumns(): (r: nat)
      reads this
      ensures Valid() ==> r + |currentLine| >= format.columnLimit
      ensures Valid() && |currentLine| <= format.columnLimit ==> r + |currentLine| == format.columnLimit
      ensures Valid() && |currentLine| >= format.columnLimit ==> r == 0
    {
      if remainingColumns < 0 then 0 else remainingColumns
    }

    /**
     * `write_new_line`: refused on a single-line writer; otherwise the current line is
     * finished and a new one starts with the indentation, leaving the columns it does not use.
     */
    method NewLine() returns (ok: bool)
      modifies this
      ensures ok <==> !old(config.isSingleLine)
      ensures !ok ==> lines == old(lines) && currentLine == old(currentLine) && remainingColumns == old(remainingColumns)
      ensures ok ==>
        lines == old(lines) + [old(currentLine)]
        && currentLine == Repeat(format.indent, config.indentDepth)
        && Valid()
      ensures config == old(config)
    {
      if config.isSingleLine {
        return false;
      }
      var newLine := Repeat(format.indent, config.indentDepth);
      remainingColumns := format.columnLimit - |newLine|;
      lines := lines + [currentLine];
      currentLine := newLine;
      ok := true;
    }

    /** `empty_line`: a line break only after a line holding something other than whitespace. */
    method EmptyLine() returns (ok: bool)
      modifies this
      ensures Blank(old(currentLine)) ==>
        ok && lines == old(lines) && currentLine == old(currentLine) && remainingColumns == old(remainingColumns)
      ensures !Blank(old(currentLine)) ==>
        (ok <==> !old(config.isSingleLine))
        && (ok ==> lines == old(lines) + [old(currentLine)] && currentLine == Repeat(format.indent, config.indentDepth) && Valid())
        && (!ok ==> lines == old(lines) && currentLine == old(currentLine) && remainingColumns == old(remainingColumns))
      ensures config == old(config)
    {
      if Blank(currentLine) {
        return true;
      }
      ok := NewLine();
    }

    /**
     * `write_space`: one space, unless the line is empty or already ends with whitespace, so
     * that spaces never pile up.
     */
    method Space()
      modifies this
      ensures var c := old(currentLine);
        if |c| == 0 || IsWhitespace(c[|c| - 1]) then
          currentLine == c && remainingColumns == old(remainingColumns)
        else
          currentLine == c + " " && remainingColumns == old(remainingColumns) - 1
      ensures lines == old(lines) && config == old(config)
      ensures old(Valid()) ==> Valid()
    {
      if |currentLine| == 0 || IsWhitespace(currentLine[|currentLine| - 1]) {
        return;
      }
      currentLine := currentLine + " ";
      remainingColumns := remainingColumns - 1;
    }

    /**
     * `write`: the text goes on the current line and uses up its length in columns; the write
     * fails only on a single-line writer that has run out of columns. The text is written
     * even then, so a writer whose write failed holds an overlong line and must be discarded,
     * as the source does by returning no writer at all.
     */
    method Put(text: string) returns (ok: bool)
      modifies this
      ensures currentLine == old(currentLine) + text
      ensures remainingColumns == old(remainingColumns) - |text|
      ensures ok <==> !(config.isSingleLine && remainingColumns < 0)
      ensures lines == old(lines) && config == old(config)
      ensures old(Valid()) ==> Valid()
    {
      currentLine := currentLine + text;
      remainingColumns := remainingColumns - |text|;
      ok := !(config.isSingleLine && remainingColumns < 0);
    }

    /**
     * `with_config`: the body runs under `newConfig`; when it succeeds the original
     * configuration is back in place.
     */
    method WithConfig(newConfig: WriteConfig, body: seq<Action>) returns (ok: bool)
      modifies this
      ensures ok ==> config == old(config)
      ensures old(Valid()) ==> Valid()
      ensures |lines| >= |old(lines)| && lines[..|old(lines)|] == old(lines)
      ensures ok <==> RunWith(format, old(State()), newConfig, body).Some?
      ensures ok ==> State() == RunWith(format, old(State()), newConfig, body).value
      decreases body, 2
    {
      var original := config;
      config := newConfig;
      ok := PerformAll(body);
      if ok {
        config := original;
      }
    }

    /** One action: `with_single_line` and `with_indent` change one field of the configuration. */
    method Perform(a: Action) returns (ok: bool)
      modifies this
      ensures ok ==> config == old(config)
      ensures old(Valid()) ==> Valid()
      ensures |lines| >= |old(lines)| && lines[..|old(lines)|] == old(lines)
      ensures ok <==> RunOne(format, old(State()), a).Some?
      ensures ok ==> State() == RunOne(format, old(State()), a).value
      decreases a, 1
    {
      match a
      case Write(text) => ok := Put(text);
      case WriteNewLine => ok := NewLine();
      case EmptyLine => ok := EmptyLine();
      case WriteSpace => Space(); ok := true;
      case SingleLine(body) => ok := WithConfig(config.(isSingleLine := true), body);
      case Indented(body) => ok := WithConfig(config.(indentDepth := config.indentDepth + 1), body);
    }

    /** The actions in order, stopping at the first that fails. */
    method PerformAll(actions: seq<Action>) returns (ok: bool)
      modifies this
      ensures ok ==> config == old(config)
      ensures old(Valid()) ==> Valid()
      ensures |lines| >= |old(lines)| && lines[..|old(lines)|] == old(lines)
      ensures ok <==> RunAll(format, old(State()), actions).Some?
      ensures ok ==> State() == RunAll(format, old(State()), actions).value
      decreases actions, 0
    {
      ok := true;
      var i := 0;
      while i < |actions| && ok
        invariant 0 <= i <= |actions|
        invariant ok ==> config == old(config)
        invariant old(Valid()) ==> Valid()
        invariant |lines| >= |old(lines)| && lines[..|old(lines)|] == old(lines)
        invariant RunAll(format, old(State()), actions)
          == if ok then RunAll(format, State(), actions[i..]) else None
        decreases |actions| - i
      {
        RunAllStep(format, State(), actions, i);
        ok := Perform(actions[i]);
        i := i + 1;
      }
      if ok {
        assert actions[i..] == [];
      }
    }

    /** `to_string`, built line by line. */
    method ToString() returns (val: string)
      ensures val == Render(lines, currentLine)
    {
      val := "";
      var i := 0;
      while i < |lines|
        invariant 0 <= i <= |lines|
        invariant val + Render(lines[i..], currentLine) == Render(lines, currentLine)
      {
        RenderStep(lines, i, currentLine);
        AppendAssociates(val, TrimEnd(lines[i]) + "\n", Render(lines[i + 1..], currentLine));
        val := val + (TrimEnd(lines[i]) + "\n");
        i := i + 1;
      }
      assert lines[i..] == [];
      val := val + TrimEnd(currentLine);
    }
  }

  /** Appending is associative. */
  lemma AppendAssociates(a: string, b: string, c: string)
    ensures (a + b) + c == a + (b + c)
  {
  }

  /** `Render` from line `i` on starts with line `i`. */
  lemma RenderStep(lines: seq<string>, i: nat, current: string)
    requires i < |lines|
    ensures Render(lines[i..], current) == TrimEnd(lines[i]) + "\n" + Render(lines[i + 1..], current)
  {
    assert lines[i..][1..] == lines[i + 1..];
  }

  /** Every line right-trimmed. */
  function TrimAll(lines: seq<string>): (r: seq<string>)
    ensures |r| == |lines| && forall i :: 0 <= i < |lines| ==> r[i] == TrimEnd(lines[i])
  {
    if |lines| == 0 then [] else [TrimEnd(lines[0])] + TrimAll(lines[1..])
  }

  /** `str::split('\n')`. */
  function SplitLines(s: string): (r: seq<string>)
    ensures |r| > 0
    decreases |s|
  {
    var n := FirstNewline(s, 0, |s|);
    if n == |s| then [s] else [s[..n]] + SplitLines(s[n + 1..])
  }

  /** Splitting after a first line without `'\n'` gives that line, then the rest split. */
  lemma SplitFirst(a: string, b: string)
    requires NoNewline(a, 0, |a|)
    ensures SplitLines(a + "\n" + b) == [a] + SplitLines(b)
  {
    var s := a + "\n" + b;
    assert forall i :: 0 <= i < |a| ==> s[i] == a[i];
    assert s[|a|] == '\n';
    assert FirstNewline(s, 0, |s|) == |a|;
    assert s[..|a|] == a;
    assert s[|a| + 1..] == b;
  }

  /** Right-trimming keeps a line free of `'\n'`. */
  lemma TrimEndNoNewline(s: string)
    requires NoNewline(s, 0, |s|)
    ensures NoNewline(TrimEnd(s), 0, |TrimEnd(s)|)
  {
    var t := TrimEnd(s);
    assert forall i :: 0 <= i < |t| ==> t[i] == s[i];
  }

  /** Splitting the rendering takes off the first line, right-trimmed. */
  lemma SplitHead(lines: seq<string>, current: string)
    requires |lines| > 0 && NoNewline(lines[0], 0, |lines[0]|)
    ensures SplitLines(Render(lines, current)) == [TrimEnd(lines[0])] + SplitLines(Render(lines[1..], current))
    ensures TrimAll(lines) == [TrimEnd(lines[0])] + TrimAll(lines[1..])
  {
    TrimEndNoNewline(lines[0]);
    SplitFirst(TrimEnd(lines[0]), Render(lines[1..], current));
  }

  /**
   * What `to_string` prints splits back into the lines written, each right-trimmed, and the
   * current line last: one `'\n'` per finished line and none after the current one.
   */
  lemma {:induction false} RenderSplits(lines: seq<string>, current: string)
    requires forall i :: 0 <= i < |lines| ==> NoNewline(lines[i], 0, |lines[i]|)
    requires NoNewline(current, 0, |current|)
    ensures SplitLines(Render(lines, current)) == TrimAll(lines) + [TrimEnd(current)]
  {
    if |lines| == 0 {
      var t := TrimEnd(current);
      TrimEndNoNewline(current);
      assert FirstNewline(t, 0, |t|) == |t|;
    } else {
      var rest := lines[1..];
      assert forall i :: 0 <= i < |rest| ==> rest[i] == lines[i + 1];
      RenderSplits(rest, current);
      SplitHead(lines, current);
    }
  }
}
