/** The SQL statement tokenizer: splits a script on a separator that is outside
    string literals and block comments. */
module Tokenizer {
  import opened Wrappers
  import opened Strings
  import opened Errors

  const Semicolon: char := ';'

  /** The scanner's variables between two characters. */
  datatype Scan = Scan(inString: bool, inComment: bool, skip: nat, lineNo: nat, prev: nat, stmtCount: nat)

  const Start: Scan := Scan(false, false, 0, 1, 0, 1)

  /** `text[i + 1] == c`, false past the end (where the source peeks "" instead). */
  predicate NextIs(text: string, i: nat, c: char)
  {
    i + 1 < |text| && text[i + 1] == c
  }

  /** `text[i + 1 : i + 3] == "''"`. */
  predicate NextTwoApostrophes(text: string, i: nat)
  {
    i + 2 < |text| && text[i + 1] == '\'' && text[i + 2] == '\''
  }

  /** The end-of-statement check of one iteration: a separator outside strings and
      comments yields the stripped text since the previous boundary, which must not be
      empty or the separator alone. */
  function Boundary(text: string, sep: char, i: nat, st: Scan): (r: Result<(Scan, Option<string>), ParseFailure>)
    requires i < |text| && st.prev <= i
    ensures r.Ok? && r.value.1.None? ==> r.value.0 == st
    ensures r.Ok? && r.value.1.Some? ==>
              && text[i] == sep && r.value.0 == st.(stmtCount := st.stmtCount + 1, prev := i + 1)
              && r.value.1.value == Strip(text[st.prev..i + 1]) && r.value.1.value != []
    ensures r.Err? ==> text[i] == sep && r.error == EmptyStatement(st.lineNo, st.stmtCount, i)
    ensures (text[i] == sep && !st.inComment && !st.inString) <==> (r.Err? || r.value.1.Some?)
  {
    if text[i] == sep && !st.inComment && !st.inString then
      var statement := Strip(text[st.prev..i + 1]);
      if |statement| == 0 || (|statement| == 1 && statement[0] == sep) then Err(EmptyStatement(st.lineNo, st.stmtCount, i))
      else Ok((st.(stmtCount := st.stmtCount + 1, prev := i + 1), Some(statement)))
    else Ok((st, None))
  }

  /** One iteration of the scanning loop on `text[i]`: the new state and the
      statement it yields, if any. */
  function Step(text: string, sep: char, i: nat, st: Scan): (r: Result<(Scan, Option<string>), ParseFailure>)
    requires i < |text| && st.prev <= i
    ensures r.Ok? ==> r.value.0.lineNo == st.lineNo + (if text[i] == '\n' then 1 else 0)
    ensures r.Ok? && r.value.1.None? ==> r.value.0.prev == st.prev
    ensures r.Ok? && r.value.1.Some? ==>
              && text[i] == sep && r.value.0.prev == i + 1
              && r.value.1.value == Strip(text[st.prev..i + 1]) && r.value.1.value != []
    ensures r.Err? ==> r.error.Line() == st.lineNo + (if text[i] == '\n' then 1 else 0)
    ensures r.Err? ==>
              match r.error
              case NestedCommentStart(_) => i + 1 < |text| && text[i] == '/' && text[i + 1] == '*'
              case CommentEndWithoutStart(_) => i + 1 < |text| && text[i] == '*' && text[i + 1] == '/'
              case EmptyStatement(_, _, index) => index == i && text[i] == sep
              case _ => false
  {
    var c := text[i];
    var st := if c == '\n' then st.(lineNo := st.lineNo + 1) else st;
    if st.skip > 0 then Ok((st.(skip := st.skip - 1), None))
    else if c == '\'' && !st.inComment then
      if !st.inString then Ok((st.(inString := true), None))
      else if NextTwoApostrophes(text, i) then Ok((st.(skip := 2), None))
      else Boundary(text, sep, i, st.(inString := false))
    else if c == '/' && NextIs(text, i, '*') && !st.inString then
      if st.inComment then Err(NestedCommentStart(st.lineNo))
      else Ok((st.(inComment := true, skip := 1), None))
    else if c == '*' && NextIs(text, i, '/') && !st.inString then
      if !st.inComment then Err(CommentEndWithoutStart(st.lineNo))
      else Boundary(text, sep, i, st.(inComment := false, skip := 1))
    else Boundary(text, sep, i, st)
  }

  /** The checks after the loop and the trailing statement. */
  function Finish(text: string, st: Scan, acc: seq<string>): Result<seq<string>, ParseFailure>
    requires st.prev <= |text|
  {
    if st.inComment then Err(UnterminatedComment(st.lineNo))
    else if st.inString then Err(UnterminatedString(st.lineNo))
    else
      var last := Strip(text[st.prev..]);
      Ok(if |last| > 0 then acc + [last] else acc)
  }

  /** The scan of `text[i..]` from state `st`, after `acc` was yielded. */
  function Run(text: string, sep: char, i: nat, st: Scan, acc: seq<string>): Result<seq<string>, ParseFailure>
    requires i <= |text| && st.prev <= i
    decreases |text| - i
  {
    if i == |text| then Finish(text, st, acc)
    else
      match Step(text, sep, i, st)
      case Err(e) => Err(e)
      case Ok((st', out)) => Run(text, sep, i + 1, st', if out.Some? then acc + [out.value] else acc)
  }

  /** `list(tokenize_statemets(text, separator=sep))`. */
  function Tokenize(text: string, sep: char): Result<seq<string>, ParseFailure>
  {
    Run(text, sep, 0, Start, [])
  }

  /** The end-of-statement check at `text[i]`, on the scanner's variables `st`. */
  method EndOfStatement(text: string, sep: char, i: nat, st: Scan) returns (r: Result<(Scan, Option<string>), ParseFailure>)
    requires i < |text| && st.prev <= i
    ensures r == Boundary(text, sep, i, st)
  {
    if text[i] == sep && !st.inComment && !st.inString {
      var statement := Strip(text[st.prev..i + 1]);
      if |statement| == 0 || (|statement| == 1 && statement[0] == sep) {
        return Err(EmptyStatement(st.lineNo, st.stmtCount, i));
      }
      return Ok((st.(stmtCount := st.stmtCount + 1, prev := i + 1), Some(statement)));
    }
    return Ok((st, None));
  }

  /** The body of the scanning loop for `text[i]`: the scanner's variables after it,
      the statement it yields, or the error it raises. */
  method ScanChar(text: string, sep: char, i: nat, st: Scan) returns (r: Result<(Scan, Option<string>), ParseFailure>)
    requires i < |text| && st.prev <= i
    ensures r == Step(text, sep, i, st)
  {
    var inString, inComment, skip := st.inString, st.inComment, st.skip;
    var lineNo := st.lineNo;
    ghost var step := Step(text, sep, i, st);
    var c := text[i];
    if c == '\n' {
      lineNo := lineNo + 1;
    }
    if skip > 0 {
      skip := skip - 1;
      r := Ok((st.(skip := skip, lineNo := lineNo), None));
      assert r == step;
      return;
    }
    if c == '\'' && !inComment {
      if !inString {
        inString := true;
        r := Ok((st.(inString := inString, lineNo := lineNo), None));
        assert r == step;
        return;
      }
      if NextTwoApostrophes(text, i) {
        skip := 2;
        r := Ok((st.(skip := skip, lineNo := lineNo), None));
        assert r == step;
        return;
      }
      inString := false;
      assert step == Boundary(text, sep, i, st.(inString := inString, lineNo := lineNo));
    } else if c == '/' && NextIs(text, i, '*') && !inString {
      if inComment {
        r := Err(NestedCommentStart(lineNo));
        assert r == step;
        return;
      }
      inComment, skip := true, 1;
      r := Ok((st.(inComment := inComment, skip := skip, lineNo := lineNo), None));
      assert r == step;
      return;
    } else if c == '*' && NextIs(text, i, '/') && !inString {
      if !inComment {
        r := Err(CommentEndWithoutStart(lineNo));
        assert r == step;
        return;
      }
      inComment, skip := false, 1;
      assert step == Boundary(text, sep, i, st.(inComment := inComment, skip := skip, lineNo := lineNo));
    } else {
      assert step == Boundary(text, sep, i, st.(lineNo := lineNo));
    }
    r := EndOfStatement(text, sep, i, st.(inString := inString, inComment := inComment, skip := skip, lineNo := lineNo));
  }

  /** The statement loop of `tokenize_statemets`, collecting what it yields, then the
      checks after the loop and the trailing statement. */
  method TokenizeStatements(text: string, sep: char) returns (r: Result<seq<string>, ParseFailure>)
    ensures r == Tokenize(text, sep)
  {
    var st := Start;
    var statements: seq<string> := [];
    for i := 0 to |text|
      invariant st.prev <= i
      invariant Run(text, sep, i, st, statements) == Tokenize(text, sep)
    {
      var step := ScanChar(text, sep, i, st);
      match step
      case Err(e) =>
        return Err(e);
      case Ok((next, out)) =>
        st := next;
        if out.Some? {
          statements := statements + [out.value];
        }
    }
    if st.inComment {
      return Err(UnterminatedComment(st.lineNo));
    }
    if st.inString {
      return Err(UnterminatedString(st.lineNo));
    }
    var last := Strip(text[st.prev..]);
    if |last| > 0 {
      statements := statements + [last];
    }
    return Ok(statements);
  }
}
