/** fix_consistency.py: the repair revision that answers the errors of consistency.py. It inserts
    closing-tag lines as GUI/CONSISTENCY.py does, but rewrites an orphan closing tag on its own
    line (wrapping the rest of the line, or commenting the line out) and appends `>` to a line
    with a malformed tag. */
module FixConsistency {
  import opened Common
  import opened PyStr
  import opened Repair
  import Consistency

  /** The log entry for an orphan closing tag that is commented out. */
  function RemovedLog(name: string, lineNum: int): string
  {
    "Removed redundant closing tag </" + name + "> on line " + IntToStr(lineNum) + " with no associated content."
  }

  /** The log entry for a line that got its missing `>`. */
  function BracketLog(lineNum: int): string
  {
    "Fixed malformed tag on line " + IntToStr(lineNum) + ": Added missing '>'."
  }

  /** `content.replace(f"</{tag_name}>", "").strip()`: what is left of the stripped line without
      its closing tags. */
  function Remainder(line: string, name: string): string
  {
    Strip(Replace(Strip(line), "</" + name + ">", ""))
  }

  /** The stripped line, commented out, followed by the marker comment. */
  function CommentedOut(line: string): string
  {
    "<!-- " + Strip(line) + " --><!-- Error fixed: Removed unexpected closing tag -->\n"
  }

  /** The rewrite of the line holding an orphan closing tag: the rest of the line wrapped in the
      tag when there is a rest, the whole line commented out otherwise. */
  function OrphanLine(line: string, name: string): string
  {
    var rest := Remainder(line, name);
    if rest != [] then "<" + name + ">" + rest + "</" + name + ">" else CommentedOut(line)
  }

  function OrphanLog(line: string, name: string, lineNum: int): string
  {
    if Remainder(line, name) != [] then AddOpeningLog(name, lineNum) else RemovedLog(name, lineNum)
  }

  /** The test a "Malformed" error applies: the line holds a `<` and, stripped, does not end in `>`. */
  predicate MissingBracket(line: string)
  {
    Contains(line, "<") && !EndsWith(Strip(line), ">")
  }

  /** `line.rstrip() + ">\n"`. */
  function WithBracket(line: string): string
  {
    RStrip(line) + ">\n"
  }

  /** What the fixer needs of an error so that neither `split(...)[1]` nor `fixed_lines[line_num - 1]`
      fails, against a list of `count` lines: a positive line; a `<` in a "has no closing tag"
      message; a `</` and an existing line for an "Unexpected closing tag" message; an existing
      line for a "Malformed" message. */
  predicate Fixable(e: LineError, count: int)
  {
    e.line >= 1
    && (Contains(e.message, "has no closing tag") ==> Contains(e.message, "<"))
    && (!Contains(e.message, "has no closing tag") && Contains(e.message, "Unexpected closing tag") ==>
          Contains(e.message, "</") && e.line <= count)
    && (!Contains(e.message, "has no closing tag") && !Contains(e.message, "Unexpected closing tag") && Contains(e.message, "Malformed") ==>
          e.line <= count)
  }

  /** The kinds of error the fixer tells apart, by the first phrase found in the message. */
  predicate IsNoClose(e: LineError)
  {
    Contains(e.message, "has no closing tag")
  }

  predicate IsOrphan(e: LineError)
  {
    !IsNoClose(e) && Contains(e.message, "Unexpected closing tag")
  }

  predicate IsMalformed(e: LineError)
  {
    !IsNoClose(e) && !IsOrphan(e) && Contains(e.message, "Malformed")
  }

  /** The repair of one error, chosen by the phrases its message contains: the list grows by at
      most one line and the log by at most one entry. */
  function FixStep(f: Fixing, e: LineError): (r: Fixing)
    requires Fixable(e, |f.lines|)
    ensures |f.lines| <= |r.lines| <= |f.lines| + 1 && |f.log| <= |r.log| <= |f.log| + 1
  {
    if IsNoClose(e) then UnclosedFix(f, OpenedName(e.message), e.line)
    else if Contains(e.message, "Unexpected closing tag") then OrphanFix(f, ClosedName(e.message), e.line)
    else if Contains(e.message, "Malformed") then BracketFix(f, e.line)
    else f
  }

  /** The "has no closing tag" repair, as in GUI/CONSISTENCY.py. */
  function UnclosedFix(f: Fixing, name: string, lineNum: int): (r: Fixing)
    requires lineNum >= 1
    ensures |r.lines| == |f.lines| + 1 && |r.log| == |f.log| + 1
  {
    Fixing(AddMissingClose(f.lines, name, lineNum), f.log + [MissingCloseLog(name, lineNum)])
  }

  /** The "Unexpected closing tag" repair: line `lineNum` is rewritten. */
  function OrphanFix(f: Fixing, name: string, lineNum: int): (r: Fixing)
    requires 1 <= lineNum <= |f.lines|
    ensures |r.lines| == |f.lines| && |r.log| == |f.log| + 1
  {
    var i := lineNum - 1;
    Fixing(f.lines[i := OrphanLine(f.lines[i], name)], f.log + [OrphanLog(f.lines[i], name, lineNum)])
  }

  /** The "Malformed" repair: line `lineNum` gets its `>` when it lacks one. */
  function BracketFix(f: Fixing, lineNum: int): (r: Fixing)
    requires 1 <= lineNum <= |f.lines|
    ensures |r.lines| == |f.lines| && |f.log| <= |r.log| <= |f.log| + 1
  {
    var i := lineNum - 1;
    if MissingBracket(f.lines[i]) then Fixing(f.lines[i := WithBracket(f.lines[i])], f.log + [BracketLog(lineNum)])
    else f
  }

  lemma FixableLonger(e: LineError, count: int, longer: int)
    requires Fixable(e, count) && count <= longer
    ensures Fixable(e, longer)
  {
  }

  predicate AllFixable(errors: seq<LineError>, count: int)
  {
    forall i :: 0 <= i < |errors| ==> Fixable(errors[i], count)
  }

  /** The fixer's state after the first `k` errors: the list only ever grows, by one line per
      error at most, and the log holds at most one entry per error. */
  function FixPrefix(lines: seq<string>, errors: seq<LineError>, k: nat): (r: Fixing)
    requires k <= |errors| && AllFixable(errors, |lines|)
    ensures |lines| <= |r.lines| <= |lines| + k && |r.log| <= k
    decreases k, 2
  {
    if k == 0 then Fixing(lines, []) else FixAt(lines, errors, k)
  }

  /** The fixer's state after error number `k` (1-based), kept apart from `FixPrefix` so that the
      loop's reasoning need not look into a repair step. */
  function FixAt(lines: seq<string>, errors: seq<LineError>, k: nat): (r: Fixing)
    requires 1 <= k <= |errors| && AllFixable(errors, |lines|)
    ensures |lines| <= |r.lines| <= |lines| + k && |r.log| <= k
    decreases k, 1
  {
    StepAt(lines, errors, k)
  }

  function StepAt(lines: seq<string>, errors: seq<LineError>, k: nat): (r: Fixing)
    requires 1 <= k <= |errors| && AllFixable(errors, |lines|)
    ensures |lines| <= |r.lines| <= |lines| + k && |r.log| <= k
    decreases k, 0
  {
    var f := FixPrefix(lines, errors, k - 1);
    FixableLonger(errors[k - 1], |lines|, |f.lines|);
    FixStep(f, errors[k - 1])
  }

  /** Error number `k` is repaired in the state the errors before it left. */
  lemma FixPrefixStep(lines: seq<string>, errors: seq<LineError>, k: nat)
    requires 1 <= k <= |errors| && AllFixable(errors, |lines|)
    ensures Fixable(errors[k - 1], |FixPrefix(lines, errors, k - 1).lines|)
    ensures FixPrefix(lines, errors, k) == FixStep(FixPrefix(lines, errors, k - 1), errors[k - 1])
  {
    assert FixPrefix(lines, errors, k) == FixAt(lines, errors, k) == StepAt(lines, errors, k);
  }

  /** The pair `fix_xml_consistency` returns. */
  function FixAll(lines: seq<string>, errors: seq<LineError>): Fixing
    requires AllFixable(errors, |lines|)
  {
    FixPrefix(lines, errors, |errors|)
  }

  // ---------------------------------------------------------------------------------------------
  // The fixer as written

  /** The "has no closing tag" branch: the closing line is inserted after the opening line. */
  method FixUnclosed(fixedLines: seq<string>, errorLog: seq<string>, tagName: string, lineNum: int)
    returns (lines: seq<string>, log: seq<string>)
    requires lineNum >= 1
    ensures lines == AddMissingClose(fixedLines, tagName, lineNum)
    ensures log == errorLog + [MissingCloseLog(tagName, lineNum)]
  {
    lines, log := fixedLines, errorLog;
    var openTagLine := LocateOpenLine(lines, tagName, lineNum);
    var insertionPoint := FindInsertionPoint(lines, openTagLine);
    lines := InsertAt(lines, insertionPoint, MissingCloseLine(tagName));
    log := log + [MissingCloseLog(tagName, lineNum)];
  }

  /** The "Unexpected closing tag" branch: the line at `closingTagLine` is rewritten. */
  method FixOrphan(fixedLines: seq<string>, errorLog: seq<string>, tagName: string, lineNum: int)
    returns (lines: seq<string>, log: seq<string>)
    requires 1 <= lineNum <= |fixedLines|
    ensures lines == fixedLines[lineNum - 1 := OrphanLine(fixedLines[lineNum - 1], tagName)]
    ensures log == errorLog + [OrphanLog(fixedLines[lineNum - 1], tagName, lineNum)]
  {
    lines, log := fixedLines, errorLog;
    var closingTagLine := lineNum - 1;
    var content := Strip(lines[closingTagLine]);
    var contentWithoutTag := Strip(Replace(content, "</" + tagName + ">", ""));
    if contentWithoutTag != [] {
      lines := lines[closingTagLine := "<" + tagName + ">" + contentWithoutTag + "</" + tagName + ">"];
      log := log + [AddOpeningLog(tagName, lineNum)];
    } else {
      lines := lines[closingTagLine := "<!-- " + content + " --><!-- Error fixed: Removed unexpected closing tag -->\n"];
      log := log + [RemovedLog(tagName, lineNum)];
    }
  }

  /** The "Malformed" branch: the line gets its `>` when it lacks one. */
  method FixBracket(fixedLines: seq<string>, errorLog: seq<string>, lineNum: int)
    returns (lines: seq<string>, log: seq<string>)
    requires 1 <= lineNum <= |fixedLines|
    ensures var line := fixedLines[lineNum - 1];
      lines == if MissingBracket(line) then fixedLines[lineNum - 1 := WithBracket(line)] else fixedLines
    ensures log == if MissingBracket(fixedLines[lineNum - 1]) then errorLog + [BracketLog(lineNum)] else errorLog
  {
    lines, log := fixedLines, errorLog;
    var line := lines[lineNum - 1];
    if Contains(line, "<") && !EndsWith(Strip(line), ">") {
      lines := lines[lineNum - 1 := RStrip(line) + ">\n"];
      log := log + [BracketLog(lineNum)];
    }
  }

  /** One pass of the loop over `errors`. */
  method FixOne(fixedLines: seq<string>, errorLog: seq<string>, e: LineError)
    returns (lines: seq<string>, log: seq<string>)
    requires Fixable(e, |fixedLines|)
    ensures Fixing(lines, log) == FixStep(Fixing(fixedLines, errorLog), e)
  {
    lines, log := fixedLines, errorLog;
    var lineNum, errorMsg := e.line, e.message;
    if Contains(errorMsg, "has no closing tag") {
      var tagName := OpenedName(errorMsg);
      lines, log := FixUnclosed(lines, log, tagName, lineNum);
      UnclosedFixIs(Fixing(fixedLines, errorLog), tagName, lineNum, lines, log);
    } else if Contains(errorMsg, "Unexpected closing tag") {
      var tagName := ClosedName(errorMsg);
      lines, log := FixOrphan(lines, log, tagName, lineNum);
      OrphanFixIs(Fixing(fixedLines, errorLog), tagName, lineNum, lines, log);
    } else if Contains(errorMsg, "Malformed") {
      lines, log := FixBracket(lines, log, lineNum);
      BracketFixIs(Fixing(fixedLines, errorLog), lineNum, lines, log);
    }
  }

  lemma UnclosedFixIs(f: Fixing, name: string, lineNum: int, lines: seq<string>, log: seq<string>)
    requires lineNum >= 1
    requires lines == AddMissingClose(f.lines, name, lineNum) && log == f.log + [MissingCloseLog(name, lineNum)]
    ensures Fixing(lines, log) == UnclosedFix(f, name, lineNum)
  {
  }

  lemma OrphanFixIs(f: Fixing, name: string, lineNum: int, lines: seq<string>, log: seq<string>)
    requires 1 <= lineNum <= |f.lines|
    requires lines == f.lines[lineNum - 1 := OrphanLine(f.lines[lineNum - 1], name)]
    requires log == f.log + [OrphanLog(f.lines[lineNum - 1], name, lineNum)]
    ensures Fixing(lines, log) == OrphanFix(f, name, lineNum)
  {
  }

  lemma BracketFixIs(f: Fixing, lineNum: int, lines: seq<string>, log: seq<string>)
    requires 1 <= lineNum <= |f.lines|
    requires var line := f.lines[lineNum - 1];
      lines == if MissingBracket(line) then f.lines[lineNum - 1 := WithBracket(line)] else f.lines
    requires log == if MissingBracket(f.lines[lineNum - 1]) then f.log + [BracketLog(lineNum)] else f.log
    ensures Fixing(lines, log) == BracketFix(f, lineNum)
  {
  }

  /** The pass of the loop for error number `k` (1-based), after the errors before it. */
  method FixNext(xmlLines: seq<string>, errors: seq<LineError>, k: nat, fixedLines: seq<string>, errorLog: seq<string>)
    returns (lines: seq<string>, log: seq<string>)
    requires AllFixable(errors, |xmlLines|) && 1 <= k <= |errors|
    requires Fixing(fixedLines, errorLog) == FixPrefix(xmlLines, errors, k - 1)
    ensures Fixing(lines, log) == FixPrefix(xmlLines, errors, k)
  {
    FixPrefixStep(xmlLines, errors, k);
    lines, log := FixOne(fixedLines, errorLog, errors[k - 1]);
  }

  /** `fix_xml_consistency`: every error in order, against a copy of the lines that grows with each
      insertion while the line numbers of later errors stay as the checker reported them. */
  method FixXmlConsistency(xmlLines: seq<string>, errors: seq<LineError>)
    returns (fixedLines: seq<string>, errorLog: seq<string>)
    requires AllFixable(errors, |xmlLines|)
    ensures Fixing(fixedLines, errorLog) == FixAll(xmlLines, errors)
  {
    fixedLines := xmlLines;
    errorLog := [];
    var done := 0;
    while done < |errors|
      invariant done <= |errors|
      invariant Fixing(fixedLines, errorLog) == FixPrefix(xmlLines, errors, done)
    {
      var next := done + 1;
      fixedLines, errorLog := FixNext(xmlLines, errors, next, fixedLines, errorLog);
      done := next;
    }
  }

  // ---------------------------------------------------------------------------------------------
  // Properties

  /** Without errors the fixer returns the lines it was given and an empty log. */
  lemma FixNothing(lines: seq<string>)
    ensures AllFixable([], |lines|) && FixAll(lines, []) == Fixing(lines, [])
  {
  }

  /** The repair `FixStep` picks for each kind of error. */
  lemma StepKinds(f: Fixing, e: LineError)
    requires Fixable(e, |f.lines|)
    ensures IsNoClose(e) ==> FixStep(f, e) == UnclosedFix(f, OpenedName(e.message), e.line)
    ensures IsOrphan(e) ==> 1 <= e.line <= |f.lines| && FixStep(f, e) == OrphanFix(f, ClosedName(e.message), e.line)
    ensures IsMalformed(e) ==> 1 <= e.line <= |f.lines| && FixStep(f, e) == BracketFix(f, e.line)
  {
  }

  /** A "has no closing tag" repair inserts exactly one marker line, at `ClosePosition`; every
      existing line keeps its text and order; one log entry is added. */
  lemma UnclosedInserts(f: Fixing, name: string, lineNum: int)
    requires lineNum >= 1
    ensures var r := UnclosedFix(f, name, lineNum);
      var p := ClosePosition(f.lines, name, lineNum);
      r.lines == f.lines[..p] + [MissingCloseLine(name)] + f.lines[p..]
      && r.log == f.log + [MissingCloseLog(name, lineNum)]
  {
    var r := UnclosedFix(f, name, lineNum);
    var p := ClosePosition(f.lines, name, lineNum);
    assert r.lines == r.lines[..p] + [r.lines[p]] + r.lines[p + 1..];
  }

  /** The other two repairs rewrite at most line `lineNum` and never change the number of lines. */
  lemma OneLineRewritten(f: Fixing, name: string, lineNum: int)
    requires 1 <= lineNum <= |f.lines|
    ensures var o, b := OrphanFix(f, name, lineNum), BracketFix(f, lineNum);
      |o.lines| == |b.lines| == |f.lines|
      && forall j :: 0 <= j < |f.lines| && j != lineNum - 1 ==> o.lines[j] == f.lines[j] && b.lines[j] == f.lines[j]
  {
  }

  /** An "Unexpected closing tag" repair always adds one log entry and rewrites line `lineNum`:
      wrapped in the tag when anything is left of it without its closing tags, commented out
      otherwise. */
  lemma OrphanRewrite(f: Fixing, name: string, lineNum: int)
    requires 1 <= lineNum <= |f.lines|
    ensures var r, line := OrphanFix(f, name, lineNum), f.lines[lineNum - 1];
      var rest := Remainder(line, name);
      |r.log| == |f.log| + 1 && r.log[..|f.log|] == f.log
      && (rest != [] ==> r.lines[lineNum - 1] == "<" + name + ">" + rest + "</" + name + ">" && r.log[|f.log|] == AddOpeningLog(name, lineNum))
      && (rest == [] ==> r.lines[lineNum - 1] == CommentedOut(line) && r.log[|f.log|] == RemovedLog(name, lineNum))
  {
  }

  /** A "Malformed" repair changes line `lineNum` exactly when that line holds a `<` and does
      not end in `>`; it then ends in `>` and one log entry is added; otherwise nothing changes. */
  lemma BracketRewrite(f: Fixing, lineNum: int)
    requires 1 <= lineNum <= |f.lines|
    ensures var r, line := BracketFix(f, lineNum), f.lines[lineNum - 1];
      (MissingBracket(line) ==>
        r.lines[lineNum - 1] == WithBracket(line) && !MissingBracket(r.lines[lineNum - 1]) && r.log == f.log + [BracketLog(lineNum)])
      && (!MissingBracket(line) ==> r == f)
  {
    BracketSettles(f.lines[lineNum - 1]);
  }

  /** The appended `>` settles the line: the stripped line now ends in `>`. */
  lemma BracketSettles(line: string)
    ensures EndsWith(Strip(WithBracket(line)), ">")
  {
    assert WithBracket(line) == RStrip(line) + ['>'] + ['\n'];
    StripEndsWith(RStrip(line), '>', ['\n']);
  }

  /** Repairing the same "Malformed" error twice is repairing it once. */
  lemma BracketIdempotent(f: Fixing, e: LineError)
    requires Fixable(e, |f.lines|) && IsMalformed(e)
    ensures Fixable(e, |FixStep(f, e).lines|) && FixStep(FixStep(f, e), e) == FixStep(f, e)
  {
    StepKinds(f, e);
    var r := BracketFix(f, e.line);
    BracketRewrite(f, e.line);
    StepKinds(r, e);
    BracketRewrite(r, e.line);
  }

  /** An error with none of the three phrases changes no line and adds no log entry. */
  lemma Unrecognized(f: Fixing, e: LineError)
    requires Fixable(e, |f.lines|) && !IsNoClose(e) && !IsOrphan(e) && !Contains(e.message, "Malformed")
    ensures FixStep(f, e) == f
  {
  }

  /** An orphan closing tag alone on its line is commented out. */
  lemma OrphanAlone(name: string)
    ensures var t := "</" + name + ">";
      OrphanLine(t, name) == "<!-- " + t + " --><!-- Error fixed: Removed unexpected closing tag -->\n"
  {
    var t := "</" + name + ">";
    assert t[0] == '<' && t[|t| - 1] == '>';
    StripTrimmed(t);
    ReplaceTrailing([], t);
    assert [] + t == t;
    assert Remainder(t, name) == [];
  }

  /** Text before an orphan closing tag is wrapped in the tag. */
  lemma OrphanAfterText(x: string, name: string)
    requires |x| > 0 && '<' !in x && !IsSpace(x[0]) && !IsSpace(x[|x| - 1])
    ensures var t := "</" + name + ">";
      OrphanLine(x + t, name) == "<" + name + ">" + x + t
  {
    var t := "</" + name + ">";
    var line := x + t;
    assert t[0] == '<' && line[0] == x[0] && line[|line| - 1] == t[|t| - 1] == '>';
    StripTrimmed(line);
    ReplaceTrailing(x, t);
    StripTrimmed(x);
    assert Remainder(line, name) == x;
  }

  /** A "Malformed tag" error of consistency.py on a line of the input can be handed to the fixer,
      and is repaired as a malformed tag: its message holds neither phrase checked before it. */
  lemma MalformedFixable(e: LineError, count: int)
    requires 1 <= e.line <= count && e.message == Consistency.MalformedMessage
    ensures Fixable(e, count) && !IsNoClose(e) && !IsOrphan(e)
  {
    Consistency.MalformedLetters();
    NoOccurrence(e.message, "has no closing tag");
    NoOccurrence(e.message, "Unexpected closing tag");
  }

  /** An "Unexpected closing tag" error of consistency.py on a line of the input can be handed to
      the fixer. */
  lemma UnexpectedFixable(e: LineError, count: int)
    requires 1 <= e.line <= count && Consistency.IsUnexpected(e.message)
    ensures Fixable(e, count)
  {
    UnexpectedPhrases(e.message);
  }

  /** A "has no closing tag" error of consistency.py can be handed to the fixer, and is repaired
      as an unclosed tag. */
  lemma NoClosingFixable(e: LineError, count: int, name: string)
    requires e.line >= 1 && e.message == Consistency.NoClosingMessage(name)
    ensures Fixable(e, count) && IsNoClose(e)
  {
    NoClosingPhrases(name);
  }

  lemma NoClosingPhrases(name: string)
    ensures var m := Consistency.NoClosingMessage(name);
      Contains(m, "<") && Contains(m, "has no closing tag")
  {
    var m := Consistency.NoClosingMessage(name);
    var b := "has no closing tag";
    assert OccursAt(m, "<", 0);
    assert m[|name| + 3..] == b;
    assert OccursAt(m, b, |name| + 3);
  }

  /** Every error consistency.py reports can be handed to this fixer with the same lines. */
  lemma CheckErrorsFixable(lines: seq<string>)
    ensures AllFixable(Consistency.CheckErrors(lines), |lines|)
  {
    var errs := Consistency.CheckErrors(lines);
    var st := Consistency.ScanLines(lines, |lines|);
    Consistency.CheckErrorsShape(lines);
    forall i | 0 <= i < |errs| ensures Fixable(errs[i], |lines|) {
      if i >= |st.errors| {
        assert Consistency.ReportedAt(st.stack, st.table, errs[i], i - |st.errors|);
        var name :| errs[i].message == Consistency.NoClosingMessage(name);
        NoClosingFixable(errs[i], |lines|, name);
      } else if errs[i].message == Consistency.MalformedMessage {
        MalformedFixable(errs[i], |lines|);
      } else {
        UnexpectedFixable(errs[i], |lines|);
      }
    }
  }
}
