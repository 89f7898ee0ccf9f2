/** Comment recognition: block comments, `#` script comments and `//` line comments. */
module CommentLexer {
  import opened Wrappers
  import opened Strings
  import opened ParseStrs
  import opened Tokens
  import opened LexerErrors

  /** The text up to, and not including, the next newline; the newline stays in the remainder. */
  function GetRestOfLine(val: ParseStr): (r: (string, ParseStr))
    ensures r.0 + r.1.val == val.val
    ensures forall i :: 0 <= i < |r.0| ==> r.0[i] != '\n'
    ensures r.1.val == [] || r.1.val[0] == '\n'
    ensures StartOffset(r.1) == StartOffset(val) + |r.0| && EndOffset(r.1) == EndOffset(val)
  {
    SplitAt(val, Find(val.val, c => c == '\n'))
  }

  /** A text that starts one of the three comment forms. */
  predicate StartsComment(s: string) {
    StartsWith(s, "/*") || StartsWith(s, "#") || StartsWith(s, "//")
  }

  /** A text with no `*` immediately followed by `/`. */
  predicate NoBlockCommentEnd(text: string) {
    forall j :: 0 <= j < |text| - 1 ==> !(text[j] == '*' && text[j + 1] == '/')
  }

  // The rest of a block comment after its opening `/*`: up to the first `*/`, which is
  // consumed, or all of it when there is none.
  function BlockComment(body: ParseStr): (r: (Comment, ParseStr))
    ensures r.0.MultiLine? && EndOffset(r.1) == EndOffset(body) && StartOffset(body) <= StartOffset(r.1)
    ensures || (body.val == r.0.text + "*/" + r.1.val && NoBlockCommentEnd(r.0.text + "*"))
            || (body.val == r.0.text && r.1.val == [] && NoBlockCommentEnd(r.0.text))
  {
    match FindStr(body.val, "*/")
    case Some(endIndex) =>
      var rest := From(body, endIndex + 2);
      assert body.val == body.val[..endIndex] + "*/" + rest.val;
      NoEndBeforeFirst(body.val, endIndex);
      (MultiLine(body.val[..endIndex]), rest)
    case None =>
      NoEndBeforeFirst(body.val, |body.val|);
      (MultiLine(body.val), End(body))
  }

  // Before the first `*/` there is none.
  lemma NoEndBeforeFirst(s: string, k: nat)
    requires k <= |s|
    requires forall j :: 0 <= j < k ==> !StartsWith(s[j..], "*/")
    ensures k < |s| ==> NoBlockCommentEnd(s[..k] + "*")
    ensures k == |s| ==> NoBlockCommentEnd(s)
  {
    if k < |s| {
      var t := s[..k] + "*";
      forall j | 0 <= j < |t| - 1
        ensures !(t[j] == '*' && t[j + 1] == '/')
      {
        if j + 1 < k {
          assert t[j] == s[j] && t[j + 1] == s[j + 1];
          assert !StartsWith(s[j..], "*/");
        } else {
          assert t[j + 1] == '*';
        }
      }
    } else {
      forall j | 0 <= j < |s| - 1
        ensures !(s[j] == '*' && s[j + 1] == '/')
      {
        assert !StartsWith(s[j..], "*/");
      }
    }
  }

  /** A `#` or `//` comment: the rest of the line after the marker. */
  function LineComment(remaining: ParseStr, scriptStyle: bool): (r: (Comment, ParseStr))
    ensures r.0.ScriptStyle? == scriptStyle && !r.0.MultiLine?
    ensures remaining.val == r.0.text + r.1.val && EndOffset(r.1) == EndOffset(remaining)
    ensures forall i :: 0 <= i < |r.0.text| ==> r.0.text[i] != '\n'
    ensures r.1.val == [] || r.1.val[0] == '\n'
  {
    var (text, rest) := GetRestOfLine(remaining);
    (if scriptStyle then ScriptStyle(text) else SingleLine(text), rest)
  }

  // `try_comment`. A block comment runs to the first `*/`, or to the end of input when
  // there is none (no error); the other two forms run to the end of the line. This never
  // fails: the error case of the result type is never produced. The round-trip lemmas
  // below state what text each form reads.
  function TryComment(val: ParseStr): (r: Result<Option<(Comment, ParseStr)>, LexerError>)
    ensures r.Ok?
    ensures r.value.None? <==> !StartsComment(val.val)
    ensures r.value.Some? ==>
      && (r.value.value.0.MultiLine? <==> StartsWith(val.val, "/*"))
      && (r.value.value.0.ScriptStyle? <==> StartsWith(val.val, "#"))
      && EndOffset(r.value.value.1) == EndOffset(val)
      && StartOffset(val) < StartOffset(r.value.value.1)
  {
    match StripPrefix(val, "/*")
    case Some(body) =>
      assert val.val[0] == '/';
      Ok(Some(BlockComment(body)))
    case None =>
      match StripPrefix(val, "#")
      case Some(remaining) => Ok(Some(LineComment(remaining, true)))
      case None =>
        match StripPrefix(val, "//")
        case Some(remaining) =>
          assert val.val[0] == '/';
          Ok(Some(LineComment(remaining, false)))
        case None => Ok(None)
  }

  // In a text with no `*/`, followed by `*/`, the first `*/` is that one.
  lemma FirstBlockCommentEnd(text: string, rest: string)
    requires NoBlockCommentEnd(text)
    ensures FindStr(text + "*/" + rest, "*/") == Some(|text|)
  {
    var body := text + "*/" + rest;
    forall j | 0 <= j < |text|
      ensures !StartsWith(body[j..], "*/")
    {
      assert body[j] == text[j];
      if j + 1 < |text| {
        assert body[j + 1] == text[j + 1];
      } else {
        assert body[j + 1] == '*';
      }
      assert body[j..][..2] == [body[j], body[j + 1]];
    }
    assert StartsWith(body[|text|..], "*/") by {
      assert body[|text|..][..2] == "*/";
    }
    var found := FindStr(body, "*/");
    assert found.Some? && found.value <= |text|;
    assert !StartsWith(body[found.value..], "*/") || found.value == |text|;
  }

  // Writing a block comment whose text has no `*/` and reading it back gives that text and
  // what follows.
  lemma BlockCommentRoundTrip(text: string, rest: string, offset: nat)
    requires NoBlockCommentEnd(text)
    ensures TryComment(ParseStr("/*" + text + "*/" + rest, offset))
      == Ok(Some((MultiLine(text), ParseStr(rest, offset + |text| + 4))))
  {
    var val := ParseStr("/*" + text + "*/" + rest, offset);
    var body := ParseStr(text + "*/" + rest, offset + 2);
    assert StripPrefix(val, "/*") == Some(body) by {
      assert val.val[..2] == "/*";
      assert val.val[2..] == body.val;
    }
    FirstBlockCommentEnd(text, rest);
    assert body.val[..|text|] == text;
    assert body.val[|text| + 2..] == rest;
  }

  /** Writing a line comment whose text has no newline, then a newline or the end, reads back the same text. */
  lemma LineCommentRoundTrip(marker: string, text: string, rest: string, offset: nat)
    requires marker == "#" || marker == "//"
    requires forall i :: 0 <= i < |text| ==> text[i] != '\n'
    requires rest == [] || rest[0] == '\n'
    ensures TryComment(ParseStr(marker + text + rest, offset))
      == Ok(Some((if marker == "#" then ScriptStyle(text) else SingleLine(text),
                  ParseStr(rest, offset + |marker| + |text|))))
  {
    var val := ParseStr(marker + text + rest, offset);
    var remaining := ParseStr(text + rest, offset + |marker|);
    assert val.val[..|marker|] == marker;
    assert val.val[|marker|..] == remaining.val;
    assert !StartsWith(val.val, "/*") by {
      assert val.val[0] == marker[0];
    }
    if marker == "//" {
      assert !StartsWith(val.val, "#") by {
        assert val.val[0] == '/';
      }
    }
    var found := Find(remaining.val, c => c == '\n');
    if rest == [] {
      assert remaining.val == text;
      assert found.None?;
    } else {
      assert remaining.val[|text|] == '\n';
      assert found == Some(|text|);
      assert remaining.val[..|text|] == text;
      assert remaining.val[|text|..] == rest;
    }
  }
}
