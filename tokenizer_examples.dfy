/** Worked scans of short scripts, one per case the statement tokenizer
    distinguishes: each lemma evaluates `Tokenize` character by character. */
module TokenizerExamples {
  import opened Wrappers
  import opened Strings
  import opened Errors
  import opened Tokenizer
  import TokenizerProperties

  /** The separator of " ; " closes a statement that is blank. */
  lemma BlankBeforeSeparator()
    ensures Step(" ; ", ';', 1, Start) == Err(EmptyStatement(1, 1, 1))
  {
    var t := " ; ";
    assert t[0..2] == " " + ";" + "";
    StripPadded(" ", ";", "");
  }

  /** A separator with nothing before it is an empty statement. */
  lemma ExampleEmptyStatement()
    ensures Tokenize(" ; ", ';') == Err(EmptyStatement(1, 1, 1))
  {
    var t := " ; ";
    BlankBeforeSeparator();
    assert Step(t, ';', 0, Start) == Ok((Start, None));
    assert Run(t, ';', 1, Start, []) == Err(EmptyStatement(1, 1, 1));
  }

  /** A comment still open at the end of the text. */
  lemma ExampleUnterminatedComment()
    ensures Tokenize(" /* ", ';') == Err(UnterminatedComment(1))
  {
    var t := " /* ";
    assert Step(t, ';', 0, Scan(false, false, 0, 1, 0, 1)) == Ok((Scan(false, false, 0, 1, 0, 1), None));
    assert Step(t, ';', 1, Scan(false, false, 0, 1, 0, 1)) == Ok((Scan(false, true, 1, 1, 0, 1), None));
    assert Step(t, ';', 2, Scan(false, true, 1, 1, 0, 1)) == Ok((Scan(false, true, 0, 1, 0, 1), None));
    assert Step(t, ';', 3, Scan(false, true, 0, 1, 0, 1)) == Ok((Scan(false, true, 0, 1, 0, 1), None));
    assert Run(t, ';', 4, Scan(false, true, 0, 1, 0, 1), []) == Err(UnterminatedComment(1));
    assert Run(t, ';', 3, Scan(false, true, 0, 1, 0, 1), []) == Err(UnterminatedComment(1));
    assert Run(t, ';', 2, Scan(false, true, 1, 1, 0, 1), []) == Err(UnterminatedComment(1));
    assert Run(t, ';', 1, Scan(false, false, 0, 1, 0, 1), []) == Err(UnterminatedComment(1));
    assert Run(t, ';', 0, Scan(false, false, 0, 1, 0, 1), []) == Err(UnterminatedComment(1));
  }

  /** A comment end with no comment open. */
  lemma ExampleCommentEndWithoutStart()
    ensures Tokenize(" */ ", ';') == Err(CommentEndWithoutStart(1))
  {
    var t := " */ ";
    assert Step(t, ';', 0, Scan(false, false, 0, 1, 0, 1)) == Ok((Scan(false, false, 0, 1, 0, 1), None));
    assert Step(t, ';', 1, Scan(false, false, 0, 1, 0, 1)) == Err(CommentEndWithoutStart(1));
    assert Run(t, ';', 1, Scan(false, false, 0, 1, 0, 1), []) == Err(CommentEndWithoutStart(1));
    assert Run(t, ';', 0, Scan(false, false, 0, 1, 0, 1), []) == Err(CommentEndWithoutStart(1));
  }

  /** A string literal still open at the end of the text. */
  lemma ExampleUnterminatedString()
    ensures Tokenize(" ' ", ';') == Err(UnterminatedString(1))
  {
    var t := " ' ";
    assert Step(t, ';', 0, Scan(false, false, 0, 1, 0, 1)) == Ok((Scan(false, false, 0, 1, 0, 1), None));
    assert Step(t, ';', 1, Scan(false, false, 0, 1, 0, 1)) == Ok((Scan(true, false, 0, 1, 0, 1), None));
    assert Step(t, ';', 2, Scan(true, false, 0, 1, 0, 1)) == Ok((Scan(true, false, 0, 1, 0, 1), None));
    assert Run(t, ';', 3, Scan(true, false, 0, 1, 0, 1), []) == Err(UnterminatedString(1));
    assert Run(t, ';', 2, Scan(true, false, 0, 1, 0, 1), []) == Err(UnterminatedString(1));
    assert Run(t, ';', 1, Scan(false, false, 0, 1, 0, 1), []) == Err(UnterminatedString(1));
    assert Run(t, ';', 0, Scan(false, false, 0, 1, 0, 1), []) == Err(UnterminatedString(1));
  }

  /** The first statement of "1;2" ends at the separator. */
  lemma FirstOfTwo()
    ensures Run("1;2", ';', 0, Start, []) == Run("1;2", ';', 2, Scan(false, false, 0, 1, 2, 2), ["1;"])
  {
    var t := "1;2";
    assert Step(t, ';', 0, Scan(false, false, 0, 1, 0, 1)) == Ok((Scan(false, false, 0, 1, 0, 1), None));
    assert t[0..2] == "1;";
    StripTrimmed("1;");
    assert Step(t, ';', 1, Scan(false, false, 0, 1, 0, 1)) == Ok((Scan(false, false, 0, 1, 2, 2), Some("1;")));
    assert [] + ["1;"] == ["1;"];
  }

  /** The text after the separator of "1;2" is the last statement. */
  lemma LastOfTwo()
    ensures Run("1;2", ';', 2, Scan(false, false, 0, 1, 2, 2), ["1;"]) == Ok(["1;", "2"])
  {
    var t := "1;2";
    TokenizerProperties.QuietNext(t, ';', 2, Scan(false, false, 0, 1, 2, 2), ["1;"]);
    assert t[2..] == "2";
    StripTrimmed("2");
    assert ["1;"] + ["2"] == ["1;", "2"];
  }

  /** A statement keeps its separator; the text after the last separator is the last statement. */
  lemma ExampleTwoStatements()
    ensures Tokenize("1;2", ';') == Ok(["1;", "2"])
  {
    FirstOfTwo();
    LastOfTwo();
  }

  /** The scan walks through the literal without yielding anything. */
  lemma StringWalked()
    ensures Run("';'", ';', 0, Start, []) == Run("';'", ';', 3, Scan(false, false, 0, 1, 0, 1), [])
  {
    var t := "';'";
    assert Step(t, ';', 0, Scan(false, false, 0, 1, 0, 1)) == Ok((Scan(true, false, 0, 1, 0, 1), None));
    assert Step(t, ';', 1, Scan(true, false, 0, 1, 0, 1)) == Ok((Scan(true, false, 0, 1, 0, 1), None));
    assert Step(t, ';', 2, Scan(true, false, 0, 1, 0, 1)) == Ok((Scan(false, false, 0, 1, 0, 1), None));
    assert Run(t, ';', 2, Scan(true, false, 0, 1, 0, 1), []) == Run(t, ';', 3, Scan(false, false, 0, 1, 0, 1), []);
  }

  /** At the end of "';'" the whole text is the one statement. */
  lemma StringFinished()
    ensures Run("';'", ';', 3, Scan(false, false, 0, 1, 0, 1), []) == Ok(["';'"])
  {
    var t := "';'";
    assert t[0..] == "';'";
    StripTrimmed("';'");
    assert [] + ["';'"] == ["';'"];
  }

  /** A separator inside a string literal does not end the statement. */
  lemma ExampleSeparatorInString()
    ensures Tokenize("';'", ';') == Ok(["';'"])
  {
    StringWalked();
    StringFinished();
  }

  /** The scan walks through the comment without yielding anything. */
  lemma CommentWalked()
    ensures Run("/*;'*/;", ';', 0, Start, []) == Run("/*;'*/;", ';', 6, Scan(false, false, 0, 1, 0, 1), [])
  {
    var t := "/*;'*/;";
    var s6 := Scan(false, false, 0, 1, 0, 1);
    assert Step(t, ';', 0, Scan(false, false, 0, 1, 0, 1)) == Ok((Scan(false, true, 1, 1, 0, 1), None));
    assert Step(t, ';', 1, Scan(false, true, 1, 1, 0, 1)) == Ok((Scan(false, true, 0, 1, 0, 1), None));
    TokenizerProperties.QuietNext(t, ';', 2, Scan(false, true, 0, 1, 0, 1), []);
    TokenizerProperties.QuietNext(t, ';', 3, Scan(false, true, 0, 1, 0, 1), []);
    assert Step(t, ';', 4, Scan(false, true, 0, 1, 0, 1)) == Ok((Scan(false, false, 1, 1, 0, 1), None));
    assert Step(t, ';', 5, Scan(false, false, 1, 1, 0, 1)) == Ok((s6, None));
    assert Run(t, ';', 5, Scan(false, false, 1, 1, 0, 1), []) == Run(t, ';', 6, s6, []);
    assert Run(t, ';', 4, Scan(false, true, 0, 1, 0, 1), []) == Run(t, ';', 6, s6, []);
    assert Run(t, ';', 3, Scan(false, true, 0, 1, 0, 1), []) == Run(t, ';', 6, s6, []);
    assert Run(t, ';', 2, Scan(false, true, 0, 1, 0, 1), []) == Run(t, ';', 6, s6, []);
    assert Run(t, ';', 1, Scan(false, true, 1, 1, 0, 1), []) == Run(t, ';', 6, s6, []);
  }

  /** The separator after the comment closes the one statement. */
  lemma CommentClosed()
    ensures Run("/*;'*/;", ';', 6, Scan(false, false, 0, 1, 0, 1), []) == Ok(["/*;'*/;"])
  {
    var t := "/*;'*/;";
    assert t[0..7] == "/*;'*/;";
    StripTrimmed("/*;'*/;");
    assert Step(t, ';', 6, Scan(false, false, 0, 1, 0, 1)) == Ok((Scan(false, false, 0, 1, 7, 2), Some("/*;'*/;")));
    assert [] + ["/*;'*/;"] == ["/*;'*/;"];
    assert t[7..] == "";
    StripTrimmed("");
    assert Run(t, ';', 7, Scan(false, false, 0, 1, 7, 2), ["/*;'*/;"]) == Ok(["/*;'*/;"]);
  }

  /** Separators and apostrophes inside a block comment are ignored. */
  lemma ExampleSeparatorInComment()
    ensures Tokenize("/*;'*/;", ';') == Ok(["/*;'*/;"])
  {
    CommentWalked();
    CommentClosed();
  }

  /** The first statement of "(;)" ends inside the parentheses. */
  lemma FirstInParentheses()
    ensures Run("(;)", ';', 0, Start, []) == Run("(;)", ';', 2, Scan(false, false, 0, 1, 2, 2), ["(;"])
  {
    var t := "(;)";
    assert Step(t, ';', 0, Scan(false, false, 0, 1, 0, 1)) == Ok((Scan(false, false, 0, 1, 0, 1), None));
    assert t[0..2] == "(;";
    StripTrimmed("(;");
    assert Step(t, ';', 1, Scan(false, false, 0, 1, 0, 1)) == Ok((Scan(false, false, 0, 1, 2, 2), Some("(;")));
    assert [] + ["(;"] == ["(;"];
  }

  /** The closing parenthesis is a statement of its own. */
  lemma LastInParentheses()
    ensures Run("(;)", ';', 2, Scan(false, false, 0, 1, 2, 2), ["(;"]) == Ok(["(;", ")"])
  {
    var t := "(;)";
    TokenizerProperties.QuietNext(t, ';', 2, Scan(false, false, 0, 1, 2, 2), ["(;"]);
    assert t[2..] == ")";
    StripTrimmed(")");
    assert ["(;"] + [")"] == ["(;", ")"];
  }

  /** Parentheses do not protect a separator: the statement is split inside them. */
  lemma ExampleParenthesesIgnored()
    ensures Tokenize("(;)", ';') == Ok(["(;", ")"])
  {
    FirstInParentheses();
    LastInParentheses();
  }

  /** Two apostrophes after a closing apostrophe are skipped as an escape, so the literal never closes. */
  lemma ExampleDoubledApostropheAtEnd()
    ensures Tokenize("'a''';", ';') == Err(UnterminatedString(1))
  {
    var t := "'a''';";
    assert Step(t, ';', 0, Scan(false, false, 0, 1, 0, 1)) == Ok((Scan(true, false, 0, 1, 0, 1), None));
    assert Step(t, ';', 1, Scan(true, false, 0, 1, 0, 1)) == Ok((Scan(true, false, 0, 1, 0, 1), None));
    assert Step(t, ';', 2, Scan(true, false, 0, 1, 0, 1)) == Ok((Scan(true, false, 2, 1, 0, 1), None));
    assert Step(t, ';', 3, Scan(true, false, 2, 1, 0, 1)) == Ok((Scan(true, false, 1, 1, 0, 1), None));
    assert Step(t, ';', 4, Scan(true, false, 1, 1, 0, 1)) == Ok((Scan(true, false, 0, 1, 0, 1), None));
    assert Step(t, ';', 5, Scan(true, false, 0, 1, 0, 1)) == Ok((Scan(true, false, 0, 1, 0, 1), None));
    assert Run(t, ';', 6, Scan(true, false, 0, 1, 0, 1), []) == Err(UnterminatedString(1));
    assert Run(t, ';', 5, Scan(true, false, 0, 1, 0, 1), []) == Err(UnterminatedString(1));
    assert Run(t, ';', 4, Scan(true, false, 1, 1, 0, 1), []) == Err(UnterminatedString(1));
    assert Run(t, ';', 3, Scan(true, false, 2, 1, 0, 1), []) == Err(UnterminatedString(1));
    assert Run(t, ';', 2, Scan(true, false, 0, 1, 0, 1), []) == Err(UnterminatedString(1));
    assert Run(t, ';', 1, Scan(true, false, 0, 1, 0, 1), []) == Err(UnterminatedString(1));
    assert Run(t, ';', 0, Scan(false, false, 0, 1, 0, 1), []) == Err(UnterminatedString(1));
  }

  /** The separator of "\n;" closes a statement that is blank, on line 2. */
  lemma BlankLineBeforeSeparator()
    ensures Step("\n;", ';', 1, Scan(false, false, 0, 2, 0, 1)) == Err(EmptyStatement(2, 1, 1))
  {
    var t := "\n;";
    assert t[0..2] == "\n" + ";" + "";
    StripPadded("\n", ";", "");
  }

  /** The line counter includes the line feed before the offending separator. */
  lemma ExampleLineOfEmptyStatement()
    ensures Tokenize("\n;", ';') == Err(EmptyStatement(2, 1, 1))
  {
    var t := "\n;";
    BlankLineBeforeSeparator();
    assert Step(t, ';', 0, Start) == Ok((Scan(false, false, 0, 2, 0, 1), None));
    assert Run(t, ';', 1, Scan(false, false, 0, 2, 0, 1), []) == Err(EmptyStatement(2, 1, 1));
  }
}
