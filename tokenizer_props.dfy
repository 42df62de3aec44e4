/** What the statement tokenizer guarantees, proved about `Tokenizer.Tokenize`. */
module TokenizerProperties {
  import opened Wrappers
  import opened Strings
  import opened Errors
  import opened Tokenizer

  /** Number of line feeds in `text[i..j]`. */
  function LinesIn(text: string, i: nat, j: nat): nat
    requires i <= j <= |text|
    decreases j - i
  {
    if i == j then 0 else (if text[i] == '\n' then 1 else 0) + LinesIn(text, i + 1, j)
  }

  lemma {:induction false} LinesInSnoc(text: string, i: nat, j: nat)
    requires i <= j < |text|
    ensures LinesIn(text, i, j + 1) == LinesIn(text, i, j) + (if text[j] == '\n' then 1 else 0)
    decreases j - i
  {
    if i < j {
      LinesInSnoc(text, i + 1, j);
    }
  }

  /** A character the scanner passes over without changing anything but its line
      counter: outside strings and comments anything but `'`, `/`, `*` and the
      separator; inside a string anything but `'`; inside a comment anything but
      `/` and `*`. */
  predicate Quiet(c: char, sep: char, inString: bool, inComment: bool)
  {
    if inString then c != '\''
    else if inComment then c != '/' && c != '*'
    else c != '\'' && c != '/' && c != '*' && c != sep
  }

  /** Quiet characters leave the scanner where it was, so a separator inside a
      string literal or a block comment never ends a statement. */
  lemma QuietRun(text: string, sep: char, i: nat, j: nat, st: Scan, acc: seq<string>)
    requires i <= j <= |text| && st.prev <= i && st.skip == 0
    requires forall k :: i <= k < j ==> Quiet(text[k], sep, st.inString, st.inComment)
    ensures Run(text, sep, i, st, acc)
            == Run(text, sep, j, st.(lineNo := st.lineNo + LinesIn(text, i, j)), acc)
  {
    QuietRunTo(text, sep, i, j, st, acc, st.lineNo + LinesIn(text, i, j));
  }

  /** `QuietRun`, with the line counter at `j` given as `lineNo`. */
  lemma {:induction false} QuietRunTo(text: string, sep: char, i: nat, j: nat, st: Scan, acc: seq<string>, lineNo: nat)
    requires i <= j <= |text| && st.prev <= i && st.skip == 0
    requires forall k :: i <= k < j ==> Quiet(text[k], sep, st.inString, st.inComment)
    requires lineNo == st.lineNo + LinesIn(text, i, j)
    ensures Run(text, sep, i, st, acc) == Run(text, sep, j, st.(lineNo := lineNo), acc)
    decreases j - i
  {
    if i < j {
      var st1 := st.(lineNo := st.lineNo + (if text[i] == '\n' then 1 else 0));
      QuietNext(text, sep, i, st, acc);
      QuietRunTo(text, sep, i + 1, j, st1, acc, lineNo);
      assert st1.(lineNo := lineNo) == st.(lineNo := lineNo);
    } else {
      assert st.(lineNo := lineNo) == st;
    }
  }

  /** The scan moves over one quiet character with only the line counter changed. */
  lemma QuietNext(text: string, sep: char, i: nat, st: Scan, acc: seq<string>)
    requires i < |text| && st.prev <= i && st.skip == 0 && Quiet(text[i], sep, st.inString, st.inComment)
    ensures Run(text, sep, i, st, acc) == Run(text, sep, i + 1, st.(lineNo := st.lineNo + (if text[i] == '\n' then 1 else 0)), acc)
  {
    QuietStep(text, sep, i, st);
    RunNext(text, sep, i, st, acc);
  }

  /** A quiet character only moves the line counter. */
  lemma QuietStep(text: string, sep: char, i: nat, st: Scan)
    requires i < |text| && st.prev <= i && st.skip == 0 && Quiet(text[i], sep, st.inString, st.inComment)
    ensures Step(text, sep, i, st) == Ok((st.(lineNo := st.lineNo + (if text[i] == '\n' then 1 else 0)), None))
  {
  }

  /** `r` is the list of stripped slices of `text` between consecutive cut points;
      every cut before the end of the text falls just after a separator, and only
      blanks follow the last cut. */
  ghost predicate SlicedAt(text: string, sep: char, cuts: seq<nat>, r: seq<string>)
  {
    && Cut(text, sep, cuts, r)
    && AllSpace(text[cuts[|r|]..])
  }

  /** Statement `k` is the stripped text between cut `k` and the next, later, cut. */
  ghost predicate Slice(text: string, sep: char, cuts: seq<nat>, r: seq<string>, k: nat)
    requires |cuts| == |r| + 1 && k < |r|
  {
    && cuts[k] < cuts[k + 1] <= |text|
    && r[k] == Strip(text[cuts[k]..cuts[k + 1]])
    && (cuts[k + 1] < |text| ==> text[cuts[k + 1] - 1] == sep)
  }

  ghost predicate Cut(text: string, sep: char, cuts: seq<nat>, r: seq<string>)
  {
    && |cuts| == |r| + 1 && cuts[0] == 0 && cuts[|r|] <= |text|
    && (forall k: nat :: k < |r| ==> Slice(text, sep, cuts, r, k))
  }

  lemma CutExtend(text: string, sep: char, cuts: seq<nat>, r: seq<string>, c: nat)
    requires Cut(text, sep, cuts, r) && cuts[|r|] < c <= |text|
    requires c < |text| ==> text[c - 1] == sep
    ensures Cut(text, sep, cuts + [c], r + [Strip(text[cuts[|r|]..c])])
  {
    var cuts', r' := cuts + [c], r + [Strip(text[cuts[|r|]..c])];
    forall k: nat | k < |r'| ensures Slice(text, sep, cuts', r', k) {
      if k < |r| {
        assert Slice(text, sep, cuts, r, k);
        assert cuts'[k] == cuts[k] && cuts'[k + 1] == cuts[k + 1];
      } else {
        assert cuts'[k] == cuts[|r|] && cuts'[k + 1] == c && r'[k] == Strip(text[cuts[|r|]..c]);
      }
    }
  }

  lemma RunNext(text: string, sep: char, i: nat, st: Scan, acc: seq<string>)
    requires i < |text| && st.prev <= i && Step(text, sep, i, st).Ok?
    ensures var (st1, out) := Step(text, sep, i, st).value;
      Run(text, sep, i, st, acc) == Run(text, sep, i + 1, st1, if out.Some? then acc + [out.value] else acc)
  {
  }

  lemma FinishSliced(text: string, sep: char, st: Scan, acc: seq<string>, cuts: seq<nat>, r: seq<string>)
    returns (cuts': seq<nat>)
    requires st.prev <= |text|
    requires Cut(text, sep, cuts, acc) && cuts[|acc|] == st.prev
    requires forall k :: 0 <= k < |acc| ==> acc[k] != []
    requires Finish(text, st, acc) == Ok(r)
    ensures SlicedAt(text, sep, cuts', r) && cuts <= cuts'
    ensures forall k :: 0 <= k < |r| ==> r[k] != []
  {
    var last := Strip(text[st.prev..]);
    if |last| > 0 {
      assert st.prev < |text|;
      assert text[st.prev..|text|] == text[st.prev..];
      assert r == acc + [last];
      CutExtend(text, sep, cuts, acc, |text|);
      cuts' := cuts + [|text|];
    } else {
      assert r == acc;
      StripEmpty(text[st.prev..]);
      cuts' := cuts;
    }
  }

  /** One scanning step keeps the statements found so far cut out of the text. */
  lemma StepSliced(text: string, sep: char, i: nat, st: Scan, st1: Scan, out: Option<string>,
                   acc: seq<string>, cuts: seq<nat>)
    returns (cuts': seq<nat>)
    requires i < |text| && st.prev <= i && Step(text, sep, i, st) == Ok((st1, out))
    requires Cut(text, sep, cuts, acc) && cuts[|acc|] == st.prev
    requires forall k :: 0 <= k < |acc| ==> acc[k] != []
    ensures var acc' := if out.Some? then acc + [out.value] else acc;
      && st1.prev <= i + 1
      && Cut(text, sep, cuts', acc') && cuts'[|acc'|] == st1.prev
      && forall k :: 0 <= k < |acc'| ==> acc'[k] != []
    ensures cuts <= cuts' && (out.Some? ==> cuts' == cuts + [i + 1])
  {
    if out.Some? {
      CutExtend(text, sep, cuts, acc, i + 1);
      cuts' := cuts + [i + 1];
    } else {
      cuts' := cuts;
    }
  }

  lemma {:induction false} RunSliced(text: string, sep: char, i: nat, st: Scan, acc: seq<string>, cuts: seq<nat>, r: seq<string>)
    returns (cuts': seq<nat>)
    requires i <= |text| && st.prev <= i
    requires Cut(text, sep, cuts, acc) && cuts[|acc|] == st.prev
    requires forall k :: 0 <= k < |acc| ==> acc[k] != []
    requires Run(text, sep, i, st, acc) == Ok(r)
    ensures SlicedAt(text, sep, cuts', r) && cuts <= cuts'
    ensures forall k :: 0 <= k < |r| ==> r[k] != []
    ensures forall k :: i <= k < |text| && LiveAt(text, sep, i, st, k) ==> k + 1 in cuts'
    decreases |text| - i
  {
    if i == |text| {
      cuts' := FinishSliced(text, sep, st, acc, cuts, r);
    } else {
      assert Step(text, sep, i, st).Ok?;
      var (st1, out) := Step(text, sep, i, st).value;
      RunNext(text, sep, i, st, acc);
      var cuts1 := StepSliced(text, sep, i, st, st1, out, acc, cuts);
      cuts' := RunSliced(text, sep, i + 1, st1, if out.Some? then acc + [out.value] else acc, cuts1, r);
      LiveHere(text, sep, i, st, cuts, cuts1, cuts');
      LiveShift(text, sep, i, i + 1, st, st1, cuts');
    }
  }

  /** A separator outside strings and comments, with no character left to skip. The
      separator is none of the characters that open or close a string or a comment,
      as the semicolon of a script is not. */
  predicate LiveSeparator(text: string, sep: char, k: nat, st: Scan)
    requires k < |text|
  {
    && text[k] == sep && sep != '\'' && sep != '/' && sep != '*'
    && st.skip == 0 && !st.inString && !st.inComment
  }

  /** A live separator ends a statement, or raises `EmptyStatement` when only blanks
      precede it. */
  lemma LiveSeparatorEnds(text: string, sep: char, i: nat, st: Scan)
    requires i < |text| && st.prev <= i && LiveSeparator(text, sep, i, st)
    ensures Step(text, sep, i, st).Err? || Step(text, sep, i, st).value.1.Some?
  {
  }

  /** The scanner's variables just before `text[k]` on a scan of `text[i..]` from
      `st`; nothing once a step before `k` fails. */
  ghost function ScanBefore(text: string, sep: char, i: nat, st: Scan, k: nat): Option<Scan>
    requires i <= k <= |text| && st.prev <= i
    decreases k - i
  {
    if i == k then Some(st)
    else
      match Step(text, sep, i, st)
      case Err(_) => None
      case Ok((st1, _)) => ScanBefore(text, sep, i + 1, st1, k)
  }

  /** The scan from `i` reaches `text[k]` and finds a live separator there. */
  ghost predicate LiveAt(text: string, sep: char, i: nat, st: Scan, k: nat)
    requires i <= k < |text| && st.prev <= i
  {
    var sc := ScanBefore(text, sep, i, st, k);
    sc.Some? && LiveSeparator(text, sep, k, sc.value)
  }

  /** A live separator at the first index cuts right after it. */
  lemma LiveHere(text: string, sep: char, i: nat, st: Scan, cuts: seq<nat>, cuts1: seq<nat>, cuts': seq<nat>)
    requires i < |text| && st.prev <= i && Step(text, sep, i, st).Ok?
    requires Step(text, sep, i, st).value.1.Some? ==> cuts1 == cuts + [i + 1]
    requires cuts1 <= cuts'
    ensures LiveAt(text, sep, i, st, i) ==> i + 1 in cuts'
  {
    if LiveAt(text, sep, i, st, i) {
      LiveSeparatorEnds(text, sep, i, st);
      assert cuts'[|cuts|] == cuts1[|cuts|] == i + 1;
    }
  }

  /** The scan from `i` reaches a later index through the scan from `i + 1`. */
  lemma ScanBeforeNext(text: string, sep: char, i: nat, st: Scan, k: nat)
    requires i < k <= |text| && st.prev <= i && Step(text, sep, i, st).Ok?
    ensures ScanBefore(text, sep, i, st, k) == ScanBefore(text, sep, i + 1, Step(text, sep, i, st).value.0, k)
  {
  }

  /** The live separators the scan from `i` finds are the one at `i`, if any, and those
      the scan from `j`, one further on, finds. */
  lemma LiveShift(text: string, sep: char, i: nat, j: nat, st: Scan, st1: Scan, cuts': seq<nat>)
    requires i < |text| && j == i + 1 && st.prev <= i && Step(text, sep, i, st).Ok?
    requires st1 == Step(text, sep, i, st).value.0 && st1.prev <= j
    requires LiveAt(text, sep, i, st, i) ==> j in cuts'
    requires forall k :: j <= k < |text| && LiveAt(text, sep, j, st1, k) ==> k + 1 in cuts'
    ensures forall k :: i <= k < |text| && LiveAt(text, sep, i, st, k) ==> k + 1 in cuts'
  {
    forall k | i < k < |text| && LiveAt(text, sep, i, st, k) ensures k + 1 in cuts' {
      ScanBeforeNext(text, sep, i, st, k);
      assert LiveAt(text, sep, j, st1, k);
    }
  }


  /** Statements come out left to right as consecutive, non-overlapping, stripped
      and non-empty slices of the script. */
  lemma TokenizeSlices(text: string, sep: char, r: seq<string>) returns (cuts: seq<nat>)
    requires Tokenize(text, sep) == Ok(r)
    ensures SlicedAt(text, sep, cuts, r)
    ensures forall k :: 0 <= k < |r| ==> r[k] != [] && !IsSpace(r[k][0]) && !IsSpace(r[k][|r[k]| - 1])
    ensures forall k :: 0 <= k < |text| && LiveAt(text, sep, 0, Start, k) ==> k + 1 in cuts
  {
    cuts := RunSliced(text, sep, 0, Start, [], [0], r);
    SlicesTrimmed(text, sep, cuts, r);
  }

  /** A successful scan reaches every character, so on a script that tokenizes each
      separator outside strings and comments is a cut of `TokenizeSlices`. */
  lemma {:induction false} RunReaches(text: string, sep: char, i: nat, st: Scan, acc: seq<string>, k: nat)
    requires i <= k <= |text| && st.prev <= i && Run(text, sep, i, st, acc).Ok?
    ensures ScanBefore(text, sep, i, st, k).Some?
    decreases k - i
  {
    if i < k {
      assert Step(text, sep, i, st).Ok?;
      var (st1, out) := Step(text, sep, i, st).value;
      RunNext(text, sep, i, st, acc);
      ScanBeforeNext(text, sep, i, st, k);
      RunReaches(text, sep, i + 1, st1, if out.Some? then acc + [out.value] else acc, k);
    }
  }

  /** Stripped slices that are not empty neither start nor end with a blank. */
  lemma SlicesTrimmed(text: string, sep: char, cuts: seq<nat>, r: seq<string>)
    requires Cut(text, sep, cuts, r)
    requires forall k :: 0 <= k < |r| ==> r[k] != []
    ensures forall k :: 0 <= k < |r| ==> !IsSpace(r[k][0]) && !IsSpace(r[k][|r[k]| - 1])
  {
    forall k | 0 <= k < |r| ensures !IsSpace(r[k][0]) && !IsSpace(r[k][|r[k]| - 1]) {
      assert Slice(text, sep, cuts, r, k);
    }
  }

  /** Blank input, and only blank input, yields no statement. */
  lemma TokenizeBlank(text: string, sep: char)
    requires !IsSpace(sep)
    ensures Tokenize(text, sep) == Ok([]) <==> AllSpace(text)
  {
    if AllSpace(text) {
      QuietRun(text, sep, 0, |text|, Start, []);
      assert text[0..] == text;
      StripEmpty(text);
    }
    if Tokenize(text, sep) == Ok([]) {
      var cuts := TokenizeSlices(text, sep, []);
      assert text[cuts[0]..] == text;
    }
  }

  /** Where each failure is reported: the line counter holds one plus the number of
      line feeds up to and including the offending character, or in the whole text for
      the checks at the end. */
  ghost predicate ReportedAt(text: string, sep: char, e: ParseFailure)
  {
    match e
    case NestedCommentStart(line) =>
      exists j :: 0 <= j < |text| - 1 && text[j] == '/' && text[j + 1] == '*' && line == 1 + LinesIn(text, 0, j + 1)
    case CommentEndWithoutStart(line) =>
      exists j :: 0 <= j < |text| - 1 && text[j] == '*' && text[j + 1] == '/' && line == 1 + LinesIn(text, 0, j + 1)
    case EmptyStatement(line, _, index) =>
      index < |text| && text[index] == sep && line == 1 + LinesIn(text, 0, index + 1)
    case UnterminatedComment(line) => line == 1 + LinesIn(text, 0, |text|)
    case UnterminatedString(line) => line == 1 + LinesIn(text, 0, |text|)
  }

  lemma {:induction false} RunReportedAt(text: string, sep: char, i: nat, st: Scan, acc: seq<string>)
    requires i <= |text| && st.prev <= i && st.lineNo == 1 + LinesIn(text, 0, i)
    requires Run(text, sep, i, st, acc).Err?
    ensures ReportedAt(text, sep, Run(text, sep, i, st, acc).error)
    decreases |text| - i
  {
    if i < |text| {
      LinesInSnoc(text, 0, i);
      var step := Step(text, sep, i, st);
      if step.Err? {
        var e := step.error;
        assert Run(text, sep, i, st, acc) == Err(e);
        assert e.Line() == 1 + LinesIn(text, 0, i + 1);
      } else {
        RunNext(text, sep, i, st, acc);
        RunReportedAt(text, sep, i + 1, step.value.0, if step.value.1.Some? then acc + [step.value.1.value] else acc);
      }
    }
  }

  /** Every `DParsingError` names the line of the character that caused it. */
  lemma TokenizeReportedAt(text: string, sep: char)
    requires Tokenize(text, sep).Err?
    ensures ReportedAt(text, sep, Tokenize(text, sep).error)
  {
    RunReportedAt(text, sep, 0, Start, []);
  }
}
