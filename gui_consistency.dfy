/** GUI/CONSISTENCY.py: the checker that keeps `(name, line)` records on its stack and skips
    comment and self-closing tags, and the fixer that inserts closing-tag lines and wraps
    nearby content in opening tags. */
module GuiConsistency {
  import opened Common
  import opened PyStr
  import opened Repair

  /** An entry of `tag_list`: the name of a tag that is open and the 1-based line it was opened on. */
  datatype Record = Record(name: string, line: int)

  /** The checker's state between two tags: `tag_list` and `errors`. */
  datatype Scan = Scan(stack: seq<Record>, errors: seq<LineError>)

  /** The error text for a closing tag that matches no open tag. */
  function UnexpectedMessage(name: string): string
  {
    "Unexpected closing tag: " + "</" + name + ">" + ". There is no matching opening tag."
  }

  /** The error text for a tag that is still open at the end of the input. */
  function NoClosingMessage(name: string): string
  {
    "<" + name + ">" + " has no closing tag."
  }

  predicate IsUnexpected(message: string)
  {
    StartsWith(message, "Unexpected closing tag: </")
  }

  predicate IsNoClosing(message: string)
  {
    StartsWith(message, "<") && EndsWith(message, "> has no closing tag.")
  }

  /** The tag content can be classified without `.split()[0]` raising: a closing tag has a name
      after its `/`, and a tag that is neither self-closing nor a comment has a name. */
  predicate Classifiable(content: string)
  {
    if StartsWith(content, "/") then HasWord(content[1..])
    else EndsWith(content, "/") || StartsWith(content, "!") || HasWord(content)
  }

  /** `start` is what `line.find("<", ...)` returned: -1, or the index of a `<`. */
  predicate TagStart(line: string, start: int)
  {
    start == -1 || (0 <= start < |line| && line[start] == '<')
  }

  /** `line[start + 1 : end].strip()`: the content of the tag at `start`; when `end` is -1 it is
      the rest of the line without its last character. */
  function Content(line: string, start: int, end: int): string
  {
    Strip(Slice(line, start + 1, end))
  }

  /** The scan from `start` on does not raise: every tag it meets has classifiable content, and
      after a `<` without a later `>` the search for the next `<`, which starts at the last
      character (Python's index -1), finds none (a `<` there would be read with empty content). */
  predicate Scannable(line: string, start: int)
    requires TagStart(line, start)
    decreases if start < 0 then 0 else |line| - start, 1
  {
    start == -1 ||
    var end := Find(line, '>', start);
    if end == -1 then Classifiable(Content(line, start, end)) && FindFrom(line, '<', end) == -1
    else TagScannable(line, start, end)
  }

  /** The tag from `start` to `end` is classifiable, and so is the rest of the line. */
  predicate TagScannable(line: string, start: nat, end: nat)
    requires TagStart(line, start) && end == Find(line, '>', start)
    decreases |line| - start, 0
  {
    Classifiable(Content(line, start, end)) && Scannable(line, Find(line, '<', end))
  }

  /** The stripped line can be scanned from its first `<`. */
  predicate LineScannable(raw: string)
  {
    var line := Strip(raw);
    Scannable(line, Find(line, '<', 0))
  }

  /** Every line of `lines` can be scanned. */
  predicate AllScannable(lines: seq<string>)
  {
    forall i :: 0 <= i < |lines| ==> LineScannable(lines[i])
  }

  /** A scannable tag has classifiable content and leaves a scannable rest of the line. */
  lemma ScannableNext(line: string, start: nat)
    requires TagStart(line, start) && Scannable(line, start)
    ensures var end := Find(line, '>', start);
      Classifiable(Content(line, start, end))
      && (end == -1 ==> FindFrom(line, '<', end) == -1)
      && (end != -1 ==> Scannable(line, Find(line, '<', end)))
  {
    var end := Find(line, '>', start);
    if end != -1 {
      assert TagScannable(line, start, end);
    }
  }

  /** Where the reverse loop over `tag_list` stops: the highest index of a record named `name`,
      or -1 when there is none. */
  function TopmostMatch(stack: seq<Record>, name: string): (r: int)
    ensures -1 <= r < |stack|
    ensures r >= 0 ==> stack[r].name == name
    ensures forall j :: r < j < |stack| ==> stack[j].name != name
  {
    if |stack| == 0 then -1
    else if stack[|stack| - 1].name == name then |stack| - 1
    else TopmostMatch(stack[..|stack| - 1], name)
  }

  /** What the scan makes of one tag; self-closing and comment tags are skipped. */
  datatype Tag = Closing(name: string) | Skipped | Opening(name: string)

  /** The `is_closing`, `is_self_closing` and `comment_tag` tests on a tag's stripped content, and
      the name read with `.split()[0]` (empty where the Python code raises). */
  function Classify(content: string): Tag
  {
    if StartsWith(content, "/") then Closing(FirstWord(content[1..]))
    else if EndsWith(content, "/") || StartsWith(content, "!") then Skipped
    else Opening(FirstWord(content))
  }

  /** One tag met on line `n`. */
  function Step(st: Scan, tag: Tag, n: int): Scan
  {
    match tag
    case Closing(name) =>
      var i := TopmostMatch(st.stack, name);
      if i >= 0 then Scan(st.stack[..i] + st.stack[i + 1..], st.errors)
      else Scan(st.stack, st.errors + [LineError(n, UnexpectedMessage(name))])
    case Skipped => st
    case Opening(name) => Scan(st.stack + [Record(name, n)], st.errors)
  }

  /** The inner `while start != -1` loop: the tags of line `n` from `start` on. A `<` without a
      later `>` is the last tag read: the next search starts at the last character, and on a
      line that does not make the checker raise it finds nothing. */
  function ScanFrom(st: Scan, line: string, start: int, n: int): Scan
    requires TagStart(line, start)
    decreases if start < 0 then 0 else |line| - start, 1
  {
    if start == -1 then st
    else
      var end := Find(line, '>', start);
      if end == -1 then Step(st, Classify(Content(line, start, end)), n)
      else ScanTag(st, line, start, end, n)
  }

  /** The tag between `start` and `end` is processed and the scan goes on after it; kept apart
      from `ScanFrom` so that reasoning about a whole line need not look into every tag. */
  function ScanTag(st: Scan, line: string, start: nat, end: nat, n: int): Scan
    requires TagStart(line, start) && end == Find(line, '>', start)
    decreases |line| - start, 0
  {
    ScanFrom(Step(st, Classify(Content(line, start, end)), n), line, Find(line, '<', end), n)
  }

  /** One round of the inner loop for a tag closed by a `>`. */
  lemma ScanFromTag(st: Scan, line: string, start: nat, n: int)
    requires TagStart(line, start) && Find(line, '>', start) != -1
    ensures var end := Find(line, '>', start);
      ScanFrom(st, line, start, n) == ScanFrom(Step(st, Classify(Content(line, start, end)), n), line, Find(line, '<', end), n)
  {
    assert ScanFrom(st, line, start, n) == ScanTag(st, line, start, Find(line, '>', start), n);
  }

  /** One pass of the outer loop: line `n`, stripped, scanned from its first `<`. */
  function ScanLine(st: Scan, raw: string, n: int): Scan
  {
    var line := Strip(raw);
    ScanFrom(st, line, Find(line, '<', 0), n)
  }

  /** The state after the first `k` lines. */
  function ScanLines(lines: seq<string>, k: nat): Scan
    requires k <= |lines|
    decreases k, 1
  {
    if k == 0 then Scan([], []) else ScanAt(lines, k)
  }

  /** The state after line `k` (1-based), kept apart from `ScanLines` so that reasoning about the
      outer loop need not look into the scan of a line. */
  function ScanAt(lines: seq<string>, k: nat): Scan
    requires 1 <= k <= |lines|
    decreases k, 0
  {
    ScanLine(ScanLines(lines, k - 1), lines[k - 1], k)
  }

  /** The state after line `n` is the state after line `n - 1` with line `n` scanned. */
  lemma ScanNextLine(lines: seq<string>, n: nat, before: Scan, after: Scan)
    requires 1 <= n <= |lines|
    requires before == ScanLines(lines, n - 1) && after == ScanLine(before, lines[n - 1], n)
    ensures after == ScanLines(lines, n)
  {
    assert ScanLines(lines, n) == ScanAt(lines, n);
  }

  /** The final `while tag_list` loop: one error per record, from the top of the stack down,
      each at the line its tag was opened on. */
  function DrainErrors(stack: seq<Record>): (r: seq<LineError>)
    ensures |r| == |stack|
    ensures forall k :: 0 <= k < |r| ==>
      r[k] == LineError(stack[|stack| - 1 - k].line, NoClosingMessage(stack[|stack| - 1 - k].name))
  {
    if stack == [] then []
    else
      var top := stack[|stack| - 1];
      [LineError(top.line, NoClosingMessage(top.name))] + DrainErrors(stack[..|stack| - 1])
  }

  /** The error list `check_xml_consistency` returns. */
  function CheckErrors(lines: seq<string>): seq<LineError>
  {
    Report(ScanLines(lines, |lines|))
  }

  /** The errors found while scanning, then one per record left open. */
  function Report(st: Scan): seq<LineError>
  {
    st.errors + DrainErrors(st.stack)
  }

  /** The `for i in range(len(tag_list) - 1, -1, -1)` search of a closing tag: the topmost record
      named `tagName` is removed and the others keep their order; without one nothing changes. */
  method MatchClosing(stack: seq<Record>, tagName: string) returns (tagList: seq<Record>, matched: bool)
    ensures matched <==> TopmostMatch(stack, tagName) >= 0
    ensures var i := TopmostMatch(stack, tagName);
      tagList == if i >= 0 then stack[..i] + stack[i + 1..] else stack
  {
    tagList := stack;
    matched := false;
    var i := |tagList| - 1;
    while i >= 0
      invariant -1 <= i < |tagList|
      invariant tagList == stack && !matched
      invariant forall j :: i < j < |stack| ==> stack[j].name != tagName
    {
      if tagList[i].name == tagName {
        tagList := tagList[..i] + tagList[i + 1..];
        matched := true;
        break;
      }
      i := i - 1;
    }
  }

  /** The body of the inner loop for one tag whose stripped content is `tagContent`. */
  method ProcessTag(stack: seq<Record>, errs: seq<LineError>, tagContent: string, lineNum: int)
    returns (tagList: seq<Record>, errors: seq<LineError>)
    requires Classifiable(tagContent)
    ensures Scan(tagList, errors) == Step(Scan(stack, errs), Classify(tagContent), lineNum)
  {
    tagList, errors := stack, errs;
    var isClosing := StartsWith(tagContent, "/");
    var isSelfClosing := EndsWith(tagContent, "/");
    var commentTag := StartsWith(tagContent, "!");
    if isClosing {
      var tagName := FirstWord(tagContent[1..]);
      var matched;
      tagList, matched := MatchClosing(tagList, tagName);
      if !matched {
        errors := errors + [LineError(lineNum, UnexpectedMessage(tagName))];
      }
    } else if isSelfClosing || commentTag {
    } else {
      var tagName := FirstWord(tagContent);
      tagList := tagList + [Record(tagName, lineNum)];
    }
  }

  /** The inner `while start != -1` loop over the tags of one stripped line. */
  method ScanTags(stack: seq<Record>, errs: seq<LineError>, raw: string, lineNum: int)
    returns (tagList: seq<Record>, errors: seq<LineError>)
    requires LineScannable(raw)
    ensures Scan(tagList, errors) == ScanLine(Scan(stack, errs), raw, lineNum)
  {
    tagList, errors := stack, errs;
    var line := Strip(raw);
    var start := Find(line, '<', 0);
    while start != -1
      invariant TagStart(line, start) && Scannable(line, start)
      invariant ScanFrom(Scan(tagList, errors), line, start, lineNum) == ScanLine(Scan(stack, errs), raw, lineNum)
      decreases if start < 0 then 0 else |line| - start
    {
      var end := Find(line, '>', start);
      ScannableNext(line, start);
      if end != -1 {
        ScanFromTag(Scan(tagList, errors), line, start, lineNum);
      }
      var tagContent := Strip(Slice(line, start + 1, end));
      tagList, errors := ProcessTag(tagList, errors, tagContent, lineNum);
      start := FindFrom(line, '<', end);
    }
  }

  /** One pass of the outer loop: line `lineNum` of `xmlLines` is scanned. */
  method ScanNumberedLine(xmlLines: seq<string>, lineNum: nat, stack: seq<Record>, errs: seq<LineError>)
    returns (tagList: seq<Record>, errors: seq<LineError>)
    requires 1 <= lineNum <= |xmlLines| && LineScannable(xmlLines[lineNum - 1])
    requires Scan(stack, errs) == ScanLines(xmlLines, lineNum - 1)
    ensures Scan(tagList, errors) == ScanLines(xmlLines, lineNum)
  {
    tagList, errors := ScanTags(stack, errs, xmlLines[lineNum - 1], lineNum);
    ScanNextLine(xmlLines, lineNum, Scan(stack, errs), Scan(tagList, errors));
  }

  /** The final `while tag_list` loop: pops every remaining record and reports it. */
  method DrainTagList(stack: seq<Record>, errs: seq<LineError>) returns (errors: seq<LineError>)
    ensures errors == errs + DrainErrors(stack)
  {
    var tagList := stack;
    errors := errs;
    while |tagList| > 0
      invariant errors + DrainErrors(tagList) == errs + DrainErrors(stack)
    {
      var top := tagList[|tagList| - 1];
      assert DrainErrors(tagList) == [LineError(top.line, NoClosingMessage(top.name))] + DrainErrors(tagList[..|tagList| - 1]);
      tagList := tagList[..|tagList| - 1];
      errors := errors + [LineError(top.line, NoClosingMessage(top.name))];
    }
  }

  /** The outer `for line_num, line in enumerate(xml_lines, start=1)` loop. */
  method ScanAllLines(xmlLines: seq<string>) returns (tagList: seq<Record>, errors: seq<LineError>)
    requires AllScannable(xmlLines)
    ensures Scan(tagList, errors) == ScanLines(xmlLines, |xmlLines|)
  {
    tagList, errors := [], [];
    var scanned := 0;
    while scanned < |xmlLines|
      invariant scanned <= |xmlLines|
      invariant Scan(tagList, errors) == ScanLines(xmlLines, scanned)
    {
      var lineNum := scanned + 1;
      tagList, errors := ScanNumberedLine(xmlLines, lineNum, tagList, errors);
      scanned := lineNum;
    }
  }

  /** `check_xml_consistency`: the scan of every line, then the report of every tag left open. */
  method CheckXmlConsistency(xmlLines: seq<string>) returns (valid: bool, errors: seq<LineError>)
    requires AllScannable(xmlLines)
    ensures errors == CheckErrors(xmlLines)
    ensures valid <==> errors == []
  {
    var tagList;
    tagList, errors := ScanAllLines(xmlLines);
    errors := DrainTagList(tagList, errors);
    valid := |errors| == 0;
  }

  // ---------------------------------------------------------------------------------------------
  // fix_xml_consistency

  /** What the fixer needs of an error so that neither `split(...)[1]` nor `fixed_lines[line_num - 1]`
      fails, against a list of `count` lines: a positive line, a `<` in a "has no closing tag"
      message, and a `</` and an existing line for an "Unexpected closing tag" message. */
  predicate Fixable(e: LineError, count: int)
  {
    e.line >= 1
    && (Contains(e.message, "has no closing tag") ==> Contains(e.message, "<"))
    && (!Contains(e.message, "has no closing tag") && Contains(e.message, "Unexpected closing tag") ==>
          Contains(e.message, "</") && e.line <= count)
  }

  /** The `for i in range(1, lines_to_check + 1)` search from iteration `i` on, with its `else`:
      the nearest non-blank line among the two before `closing` is prefixed with the opening tag
      and the closing line becomes the bare closing tag; the search stops at the first line of the
      file without a change; after two blank lines the opening tag is inserted at `closing`. */
  function WrapFrom(lines: seq<string>, closing: int, name: string, i: int): (r: seq<string>)
    requires 0 <= closing < |lines| && 1 <= i
    ensures |r| == |lines| || |r| == |lines| + 1
    decreases 3 - i
  {
    if i > 2 then InsertAt(lines, closing, "<" + name + ">")
    else if closing - i < 0 then lines
    else if Strip(lines[closing - i]) != [] then
      lines[closing - i := "<" + name + "> " + Strip(lines[closing - i])][closing := "</" + name + ">"]
    else WrapFrom(lines, closing, name, i + 1)
  }

  /** The repair of one error, chosen by the phrases its message contains. */
  function FixStep(f: Fixing, e: LineError): (r: Fixing)
    requires Fixable(e, |f.lines|)
    ensures |r.lines| >= |f.lines|
  {
    if Contains(e.message, "has no closing tag") then UnclosedFix(f, OpenedName(e.message), e.line)
    else if Contains(e.message, "Unexpected closing tag") then WrapFix(f, ClosedName(e.message), e.line)
    else f
  }

  /** The "has no closing tag" repair: the closing line is inserted and logged. */
  function UnclosedFix(f: Fixing, name: string, lineNum: int): (r: Fixing)
    requires lineNum >= 1
    ensures |r.lines| == |f.lines| + 1 && r.log == f.log + [MissingCloseLog(name, lineNum)]
  {
    Fixing(AddMissingClose(f.lines, name, lineNum), f.log + [MissingCloseLog(name, lineNum)])
  }

  /** The "Unexpected closing tag" repair: the opening tag is added before the orphan and logged. */
  function WrapFix(f: Fixing, name: string, lineNum: int): (r: Fixing)
    requires 1 <= lineNum <= |f.lines|
    ensures |r.lines| >= |f.lines| && r.log == f.log + [AddOpeningLog(name, lineNum)]
  {
    Fixing(WrapFrom(f.lines, lineNum - 1, name, 1), f.log + [AddOpeningLog(name, lineNum)])
  }

  /** An error that can be repaired in a list can be repaired in a longer one. */
  lemma FixableLonger(e: LineError, count: int, longer: int)
    requires Fixable(e, count) && count <= longer
    ensures Fixable(e, longer)
  {
  }

  predicate AllFixable(errors: seq<LineError>, count: int)
  {
    forall i :: 0 <= i < |errors| ==> Fixable(errors[i], count)
  }

  /** The fixer's state after the first `k` errors; the list only ever grows. */
  function FixPrefix(lines: seq<string>, errors: seq<LineError>, k: nat): (r: Fixing)
    requires k <= |errors| && AllFixable(errors, |lines|)
    ensures |r.lines| >= |lines|
    decreases k, 1
  {
    if k == 0 then Fixing(lines, []) else FixAt(lines, errors, k)
  }

  /** The fixer's state after error number `k` (1-based), kept apart from `FixPrefix` so that the
      loop's reasoning need not look into a repair step. */
  function FixAt(lines: seq<string>, errors: seq<LineError>, k: nat): (r: Fixing)
    requires 1 <= k <= |errors| && AllFixable(errors, |lines|)
    ensures |r.lines| >= |lines|
    decreases k, 0
  {
    var f := FixPrefix(lines, errors, k - 1);
    FixableLonger(errors[k - 1], |lines|, |f.lines|);
    FixStep(f, errors[k - 1])
  }

  /** Error number `k` is repaired in the state the errors before it left. */
  lemma FixPrefixStep(lines: seq<string>, errors: seq<LineError>, k: nat)
    requires 1 <= k <= |errors| && AllFixable(errors, |lines|)
    ensures Fixable(errors[k - 1], |FixPrefix(lines, errors, k - 1).lines|)
    ensures FixPrefix(lines, errors, k) == FixStep(FixPrefix(lines, errors, k - 1), errors[k - 1])
  {
    assert FixPrefix(lines, errors, k) == FixAt(lines, errors, k);
  }

  /** The pair `fix_xml_consistency` returns. */
  function FixAll(lines: seq<string>, errors: seq<LineError>): Fixing
    requires AllFixable(errors, |lines|)
  {
    FixPrefix(lines, errors, |errors|)
  }

  /** The search before an orphan closing tag at index `closingTagLine`, with Python's `for ... else`. */
  method WrapClosing(fixedLines: seq<string>, closingTagLine: int, tagName: string) returns (r: seq<string>)
    requires 0 <= closingTagLine < |fixedLines|
    ensures r == WrapFrom(fixedLines, closingTagLine, tagName, 1)
  {
    r := fixedLines;
    var linesToCheck := 2;
    var broke := false;
    var i := 1;
    while i <= linesToCheck
      invariant 1 <= i <= linesToCheck + 1
      invariant !broke
      invariant r == fixedLines
      invariant WrapFrom(fixedLines, closingTagLine, tagName, i) == WrapFrom(fixedLines, closingTagLine, tagName, 1)
    {
      var previousLine := closingTagLine - i;
      if previousLine < 0 {
        broke := true;
        break;
      }
      var content := Strip(r[previousLine]);
      if content != [] {
        r := r[previousLine := "<" + tagName + "> " + content];
        r := r[closingTagLine := "</" + tagName + ">"];
        broke := true;
        break;
      }
      i := i + 1;
    }
    if !broke {
      r := InsertAt(r, closingTagLine, "<" + tagName + ">");
    }
  }

  /** One pass of the loop over `errors`. */
  method FixOne(fixedLines: seq<string>, errorLog: seq<string>, e: LineError)
    returns (lines: seq<string>, log: seq<string>)
    requires Fixable(e, |fixedLines|)
    ensures Fixing(lines, log) == FixStep(Fixing(fixedLines, errorLog), e)
  {
    lines, log := fixedLines, errorLog;
    var lineNum, errorMsg := e.line, e.message;
    if Contains(errorMsg, "has no closing tag") {
      var tagName := OpenedName(errorMsg);
      var openTagLine := LocateOpenLine(lines, tagName, lineNum);
      var insertionPoint := FindInsertionPoint(lines, openTagLine);
      lines := InsertAt(lines, insertionPoint, MissingCloseLine(tagName));
      log := log + [MissingCloseLog(tagName, lineNum)];
    } else if Contains(errorMsg, "Unexpected closing tag") {
      var tagName := ClosedName(errorMsg);
      var closingTagLine := lineNum - 1;
      lines := WrapClosing(lines, closingTagLine, tagName);
      log := log + [AddOpeningLog(tagName, lineNum)];
    }
  }

  /** The pass of the loop for error number `k` (1-based), after the errors before it. */
  method FixNext(xmlLines: seq<string>, errors: seq<LineError>, k: nat, fixedLines: seq<string>, errorLog: seq<string>)
    returns (lines: seq<string>, log: seq<string>)
    requires AllFixable(errors, |xmlLines|) && 1 <= k <= |errors|
    requires Fixing(fixedLines, errorLog) == FixPrefix(xmlLines, errors, k - 1)
    ensures Fixing(lines, log) == FixPrefix(xmlLines, errors, k)
  {
    FixPrefixStep(xmlLines, errors, k);
    lines, log := FixOne(fixedLines, errorLog, errors[k - 1]);
  }

  /** `fix_xml_consistency`: every error in order, against a copy of the lines that grows with each
      insertion while the line numbers of later errors stay as the checker reported them. */
  method FixXmlConsistency(xmlLines: seq<string>, errors: seq<LineError>)
    returns (fixedLines: seq<string>, errorLog: seq<string>)
    requires AllFixable(errors, |xmlLines|)
    ensures Fixing(fixedLines, errorLog) == FixAll(xmlLines, errors)
  {
    fixedLines := xmlLines;
    errorLog := [];
    var done := 0;
    while done < |errors|
      invariant done <= |errors|
      invariant Fixing(fixedLines, errorLog) == FixPrefix(xmlLines, errors, done)
    {
      var next := done + 1;
      fixedLines, errorLog := FixNext(xmlLines, errors, next, fixedLines, errorLog);
      done := next;
    }
  }

  // ---------------------------------------------------------------------------------------------
  // Properties of the checker

  /** The messages the checker writes are recognised by the phrases the fixer looks for. */
  lemma UnexpectedMessageShape(name: string)
    ensures IsUnexpected(UnexpectedMessage(name)) && !IsNoClosing(UnexpectedMessage(name))
    ensures Contains(UnexpectedMessage(name), "</") && Contains(UnexpectedMessage(name), "Unexpected closing tag")
  {
    var m := UnexpectedMessage(name);
    var head, tail := "Unexpected closing tag: ", ">" + ". There is no matching opening tag.";
    assert m == head + "</" + (name + tail);
    ConcatContains(head, "</", name + tail);
    UnexpectedStart(m, head + "</", name + tail);
    assert m == [] + "Unexpected closing tag" + (": </" + name + tail);
    ConcatContains([], "Unexpected closing tag", ": </" + name + tail);
  }

  lemma UnexpectedStart(m: string, p: string, rest: string)
    requires p == "Unexpected closing tag: </" && m == p + rest
    ensures IsUnexpected(m) && !IsNoClosing(m)
  {
    assert m[..|p|] == p;
    assert m[0] == 'U';
  }

  lemma NoClosingMessageShape(name: string)
    ensures IsNoClosing(NoClosingMessage(name)) && !IsUnexpected(NoClosingMessage(name))
    ensures Contains(NoClosingMessage(name), "<") && Contains(NoClosingMessage(name), "has no closing tag")
  {
    var m := NoClosingMessage(name);
    var tail := " has no closing tag.";
    assert m == [] + "<" + (name + ">" + tail);
    ConcatContains([], "<", name + ">" + tail);
    NoClosingEnds(m, "<" + name, "> has no closing tag.");
    NoClosingPhrase(m, "<" + name + ">", tail);
  }

  lemma NoClosingPhrase(m: string, p: string, tail: string)
    requires tail == " has no closing tag." && m == p + tail
    ensures Contains(m, "has no closing tag")
  {
    assert tail == " " + "has no closing tag" + ".";
    ConcatContains(" ", "has no closing tag", ".");
    ContainsAfter(p, tail, "has no closing tag");
  }

  lemma NoClosingEnds(m: string, p: string, s: string)
    requires s == "> has no closing tag." && |p| >= 1 && p[0] == '<' && m == p + s
    ensures IsNoClosing(m) && !IsUnexpected(m)
  {
    assert m[..1] == "<";
    assert m[0] == '<';
    assert m[|m| - |s|..] == s;
  }

  /** The fixer's reading of a "has no closing tag" message gives back the tag name. */
  lemma NoClosingNameRoundTrip(name: string)
    requires '<' !in name && '>' !in name
    ensures Contains(NoClosingMessage(name), "<") && OpenedName(NoClosingMessage(name)) == name
  {
    var tail := " has no closing tag.";
    assert NoClosingMessage(name) == [] + "<" + name + ">" + tail;
    NameBetween([], "<", name, tail);
  }

  /** The fixer's reading of an "Unexpected closing tag" message gives back the tag name. */
  lemma UnexpectedNameRoundTrip(name: string)
    requires '<' !in name && '>' !in name
    ensures Contains(UnexpectedMessage(name), "</") && ClosedName(UnexpectedMessage(name)) == name
  {
    NameBetween("Unexpected closing tag: ", "</", name, ". There is no matching opening tag.");
  }

  /** The open records after `k` lines: each opened on one of those lines, in line order. */
  predicate StackOrdered(stack: seq<Record>, k: int)
  {
    (forall i :: 0 <= i < |stack| ==> 1 <= stack[i].line <= k)
    && (forall i, j :: 0 <= i < j < |stack| ==> stack[i].line <= stack[j].line)
  }

  /** The scan errors after `k` lines: "Unexpected closing tag" errors on those lines, in line order. */
  predicate ErrorsOrdered(errors: seq<LineError>, k: int)
  {
    (forall i :: 0 <= i < |errors| ==> 1 <= errors[i].line <= k && IsUnexpected(errors[i].message))
    && (forall i, j :: 0 <= i < j < |errors| ==> errors[i].line <= errors[j].line)
  }

  predicate Ordered(st: Scan, k: int)
  {
    StackOrdered(st.stack, k) && ErrorsOrdered(st.errors, k)
  }

  lemma OrderedLater(st: Scan, k: int, n: int)
    requires Ordered(st, k) && k <= n
    ensures Ordered(st, n)
  {
  }

  /** Removing one record keeps the others in order. */
  lemma RemoveOrdered(stack: seq<Record>, i: int, k: int)
    requires StackOrdered(stack, k) && 0 <= i < |stack|
    ensures StackOrdered(stack[..i] + stack[i + 1..], k)
  {
    var s := stack[..i] + stack[i + 1..];
    assert forall a :: 0 <= a < |s| ==> s[a] == if a < i then stack[a] else stack[a + 1];
  }

  /** A record opened on the current line goes on top in order. */
  lemma PushOrdered(stack: seq<Record>, r: Record, k: int)
    requires StackOrdered(stack, k) && 1 <= r.line == k
    ensures StackOrdered(stack + [r], k)
  {
  }

  lemma ReportOrdered(errors: seq<LineError>, name: string, k: int)
    requires ErrorsOrdered(errors, k) && k >= 1
    ensures ErrorsOrdered(errors + [LineError(k, UnexpectedMessage(name))], k)
  {
    UnexpectedMessageShape(name);
  }

  /** One tag keeps the order. */
  lemma StepOrdered(st: Scan, tag: Tag, n: int)
    requires Ordered(st, n) && n >= 1
    ensures Ordered(Step(st, tag, n), n)
  {
    match tag
    case Closing(name) =>
      var i := TopmostMatch(st.stack, name);
      if i >= 0 {
        RemoveOrdered(st.stack, i, n);
      } else {
        ReportOrdered(st.errors, name, n);
      }
    case Skipped =>
    case Opening(name) =>
      PushOrdered(st.stack, Record(name, n), n);
  }

  lemma {:induction false} ScanFromOrdered(st: Scan, line: string, start: int, n: int)
    requires TagStart(line, start) && Ordered(st, n) && n >= 1
    ensures Ordered(ScanFrom(st, line, start, n), n)
    decreases if start < 0 then 0 else |line| - start
  {
    if start != -1 {
      var end := Find(line, '>', start);
      var tag := Classify(Content(line, start, end));
      StepOrdered(st, tag, n);
      if end != -1 {
        ScanFromOrdered(Step(st, tag, n), line, Find(line, '<', end), n);
        ScanFromTag(st, line, start, n);
      }
    }
  }

  /** After `k` lines the checker's state is `Ordered`. */
  lemma {:induction false} ScanLinesOrdered(lines: seq<string>, k: nat)
    requires k <= |lines|
    ensures Ordered(ScanLines(lines, k), k)
  {
    if k > 0 {
      ScanLinesOrdered(lines, k - 1);
      var st := ScanLines(lines, k - 1);
      OrderedLater(st, k - 1, k);
      var line := Strip(lines[k - 1]);
      ScanFromOrdered(st, line, Find(line, '<', 0), k);
      ScanNextLine(lines, k, st, ScanLine(st, lines[k - 1], k));
    }
  }

  /** The shape of the checker's error list: first the "Unexpected closing tag" errors found while
      scanning, in line order; then one "has no closing tag" error per record left open, last
      opened first, each on its own opening line; every error is on a line of the input. */
  lemma CheckErrorsShape(lines: seq<string>)
    ensures var errs := CheckErrors(lines);
      var m := |ScanLines(lines, |lines|).errors|;
      m <= |errs|
      && (forall i :: 0 <= i < m ==> IsUnexpected(errs[i].message))
      && (forall i :: m <= i < |errs| ==> IsNoClosing(errs[i].message))
      && (forall i, j :: 0 <= i < j < m ==> errs[i].line <= errs[j].line)
      && (forall i, j :: m <= i < j < |errs| ==> errs[i].line >= errs[j].line)
      && (forall i :: 0 <= i < |errs| ==> 1 <= errs[i].line <= |lines|)
  {
    ScanLinesOrdered(lines, |lines|);
    ReportShape(ScanLines(lines, |lines|), |lines|);
  }

  lemma ReportShape(st: Scan, k: int)
    requires Ordered(st, k)
    ensures var errs := Report(st);
      var m := |st.errors|;
      m <= |errs|
      && (forall i :: 0 <= i < m ==> IsUnexpected(errs[i].message))
      && (forall i :: m <= i < |errs| ==> IsNoClosing(errs[i].message))
      && (forall i, j :: 0 <= i < j < m ==> errs[i].line <= errs[j].line)
      && (forall i, j :: m <= i < j < |errs| ==> errs[i].line >= errs[j].line)
      && (forall i :: 0 <= i < |errs| ==> 1 <= errs[i].line <= k)
  {
    var d := DrainErrors(st.stack);
    forall i | 0 <= i < |d| ensures IsNoClosing(d[i].message) {
      NoClosingMessageShape(st.stack[|st.stack| - 1 - i].name);
    }
  }

  lemma UnexpectedFixable(e: LineError, count: int)
    requires IsUnexpected(e.message) && 1 <= e.line <= count
    ensures Fixable(e, count)
  {
    UnexpectedPhrases(e.message);
  }

  lemma NoClosingFixable(r: Record, count: int)
    requires r.line >= 1
    ensures Fixable(LineError(r.line, NoClosingMessage(r.name)), count)
  {
    NoClosingMessageShape(r.name);
  }

  /** Every error the checker reports can be handed to the fixer with the same lines. */
  lemma CheckErrorsFixable(lines: seq<string>)
    ensures AllFixable(CheckErrors(lines), |lines|)
  {
    ScanLinesOrdered(lines, |lines|);
    ReportFixable(ScanLines(lines, |lines|), |lines|);
  }

  lemma ReportFixable(st: Scan, k: int)
    requires Ordered(st, k)
    ensures AllFixable(Report(st), k)
  {
    var errs := Report(st);
    forall i | 0 <= i < |errs| ensures Fixable(errs[i], k) {
      if i < |st.errors| {
        assert errs[i] == st.errors[i];
        UnexpectedFixable(errs[i], k);
      } else {
        NoClosingFixable(st.stack[|st.stack| - 1 - (i - |st.errors|)], k);
      }
    }
  }

  /** A closing tag removes the highest record with its name and keeps the others in order;
      without such a record the stack stays and one error is reported on the current line. */
  lemma CloseRemovesTopmost(st: Scan, name: string, n: int)
    ensures var r := Step(st, Closing(name), n);
      ((exists j :: 0 <= j < |st.stack| && st.stack[j].name == name) ==>
        exists i :: 0 <= i < |st.stack| && st.stack[i].name == name
          && (forall j :: i < j < |st.stack| ==> st.stack[j].name != name)
          && r == Scan(st.stack[..i] + st.stack[i + 1..], st.errors))
      && ((forall j :: 0 <= j < |st.stack| ==> st.stack[j].name != name) ==>
        r == Scan(st.stack, st.errors + [LineError(n, UnexpectedMessage(name))]))
  {
    var i := TopmostMatch(st.stack, name);
    if i >= 0 {
      assert st.stack[i].name == name;
    }
  }

  /** A line holding exactly one tag `<c>` is one `Step` with content `c`. */
  lemma OneTagLine(st: Scan, c: string, n: int)
    requires '<' !in c && '>' !in c && |c| > 0 && !IsSpace(c[0]) && !IsSpace(c[|c| - 1])
    ensures ScanLine(st, "<" + c + ">", n) == Step(st, Classify(c), n)
  {
    var line := "<" + c + ">";
    OneTagContent(c);
    ScanFromTag(st, line, 0, n);
  }

  /** How the scan reads a line `<c>`: one tag from index 0 to the last index, content `c`. */
  lemma OneTagContent(c: string)
    requires '<' !in c && '>' !in c && |c| > 0 && !IsSpace(c[0]) && !IsSpace(c[|c| - 1])
    ensures var line := "<" + c + ">";
      Strip(line) == line && Find(line, '<', 0) == 0 && Find(line, '>', 0) == |line| - 1
      && Content(line, 0, |line| - 1) == c && Find(line, '<', |line| - 1) == -1
  {
    var line := "<" + c + ">";
    StripTrimmed(line);
    StripTrimmed(c);
    OneTagBrackets(c);
    assert Slice(line, 1, |line| - 1) == c;
  }

  /** The content `w` of an opening tag is read as an opening tag named `w`. */
  lemma ReadsOpening(w: string)
    requires |w| > 0 && NoSpace(w) && w[0] != '/' && w[0] != '!' && w[|w| - 1] != '/'
    ensures Classify(w) == Opening(w)
  {
    SingleWord(w);
  }

  /** The content `/w` of a closing tag is read as a closing tag named `w`. */
  lemma ReadsClosing(w: string)
    requires |w| > 0 && NoSpace(w)
    ensures Classify("/" + w) == Closing(w)
  {
    assert ("/" + w)[1..] == w;
    SingleWord(w);
  }

  /** A tag name the scan reads back whole: no whitespace, no brackets, and not taken for a
      closing, comment or self-closing tag. */
  predicate PlainName(w: string)
  {
    |w| > 0 && NoSpace(w) && '<' !in w && '>' !in w && w[0] != '/' && w[0] != '!' && w[|w| - 1] != '/'
  }

  /** The scan of three lines, one line at a time. */
  lemma ThreeLines(l0: string, l1: string, l2: string, s1: Scan, s2: Scan, s3: Scan)
    requires ScanLine(Scan([], []), l0, 1) == s1 && ScanLine(s1, l1, 2) == s2 && ScanLine(s2, l2, 3) == s3
    ensures ScanLines([l0, l1, l2], 3) == s3
  {
    var lines := [l0, l1, l2];
    ScanNextLine(lines, 1, Scan([], []), s1);
    ScanNextLine(lines, 2, s1, s2);
    ScanNextLine(lines, 3, s2, s3);
  }

  /** A line holding only the opening tag `<a>`. */
  lemma OpeningLine(st: Scan, a: string, n: int)
    requires PlainName(a)
    ensures ScanLine(st, "<" + a + ">", n) == Scan(st.stack + [Record(a, n)], st.errors)
  {
    ReadsOpening(a);
    OneTagLine(st, a, n);
  }

  /** A line holding only the closing tag `</a>`, whose topmost record is at index `i`. */
  lemma ClosingLine(st: Scan, a: string, n: int, i: nat)
    requires PlainName(a) && TopmostMatch(st.stack, a) == i
    ensures ScanLine(st, "<" + ("/" + a) + ">", n) == Scan(st.stack[..i] + st.stack[i + 1..], st.errors)
  {
    ReadsClosing(a);
    var c := "/" + a;
    assert '<' !in c && '>' !in c;
    assert !IsSpace(c[0]) && !IsSpace(c[|c| - 1]);
    OneTagLine(st, c, n);
  }

  /** A first line `<a>`, a second line `<b>` and a third line `</a>`, one at a time. */
  lemma FirstOpening(a: string)
    requires PlainName(a)
    ensures ScanLine(Scan([], []), "<" + a + ">", 1) == Scan([Record(a, 1)], [])
  {
    assert [] + [Record(a, 1)] == [Record(a, 1)];
    OpeningLine(Scan([], []), a, 1);
  }

  lemma SecondOpening(a: string, b: string)
    requires PlainName(b)
    ensures ScanLine(Scan([Record(a, 1)], []), "<" + b + ">", 2) == Scan([Record(a, 1), Record(b, 2)], [])
  {
    assert [Record(a, 1)] + [Record(b, 2)] == [Record(a, 1), Record(b, 2)];
    OpeningLine(Scan([Record(a, 1)], []), b, 2);
  }

  lemma OuterClosing(a: string, b: string)
    requires PlainName(a) && a != b
    ensures ScanLine(Scan([Record(a, 1), Record(b, 2)], []), "<" + ("/" + a) + ">", 3) == Scan([Record(b, 2)], [])
  {
    var stack := [Record(a, 1), Record(b, 2)];
    assert stack[..1] == [Record(a, 1)];
    assert stack[..0] + stack[1..] == [Record(b, 2)];
    ClosingLine(Scan(stack, []), a, 3, 0);
  }

  /** `["<a>", "<b>", "</a>"]` for any two distinct names: the closing tag pops `<a>` from under
      `<b>`, and only `<b>` is reported, at line 2. */
  lemma InnerUnclosed(a: string, b: string)
    requires PlainName(a) && PlainName(b) && a != b
    ensures CheckErrors(["<" + a + ">", "<" + b + ">", "<" + ("/" + a) + ">"]) == [LineError(2, NoClosingMessage(b))]
  {
    FirstOpening(a);
    SecondOpening(a, b);
    OuterClosing(a, b);
    ThreeLines("<" + a + ">", "<" + b + ">", "<" + ("/" + a) + ">",
      Scan([Record(a, 1)], []), Scan([Record(a, 1), Record(b, 2)], []), Scan([Record(b, 2)], []));
  }

  lemma InnerSameClosing(a: string)
    requires PlainName(a)
    ensures ScanLine(Scan([Record(a, 1), Record(a, 2)], []), "<" + ("/" + a) + ">", 3) == Scan([Record(a, 1)], [])
  {
    var stack := [Record(a, 1), Record(a, 2)];
    assert stack[..1] + stack[2..] == [Record(a, 1)];
    ClosingLine(Scan(stack, []), a, 3, 1);
  }

  /** `["<a>", "<a>", "</a>"]`: the closing tag removes the record of line 2, and the record of
      line 1, the one left open, is reported at its own line. */
  lemma RepeatedName(a: string)
    requires PlainName(a)
    ensures CheckErrors(["<" + a + ">", "<" + a + ">", "<" + ("/" + a) + ">"]) == [LineError(1, NoClosingMessage(a))]
  {
    FirstOpening(a);
    SecondOpening(a, a);
    InnerSameClosing(a);
    ThreeLines("<" + a + ">", "<" + a + ">", "<" + ("/" + a) + ">",
      Scan([Record(a, 1)], []), Scan([Record(a, 1), Record(a, 2)], []), Scan([Record(a, 1)], []));
  }

  /** A self-closing tag or a `!` tag is skipped: it changes neither the stack nor the errors. */
  lemma IgnoredTag(c: string)
    requires |c| > 0 && c[0] != '/' && (EndsWith(c, "/") || StartsWith(c, "!"))
    ensures Classify(c) == Skipped
  {
    assert !StartsWith(c, "/");
  }

  /** The content of a tag `<c>` that the scan skips: no brackets, no whitespace at either end,
      not a closing tag, and ending in `/` or starting with `!`. */
  predicate SkippedContent(c: string)
  {
    |c| > 0 && '<' !in c && '>' !in c && !IsSpace(c[0]) && !IsSpace(c[|c| - 1]) && c[0] != '/'
    && (EndsWith(c, "/") || StartsWith(c, "!"))
  }

  lemma SkippedLine(st: Scan, c: string, n: int)
    requires SkippedContent(c)
    ensures ScanLine(st, "<" + c + ">", n) == st
  {
    IgnoredTag(c);
    OneTagLine(st, c, n);
  }

  lemma LoneClosing(a: string)
    requires PlainName(a)
    ensures ScanLine(Scan([Record(a, 1)], []), "<" + ("/" + a) + ">", 3) == Scan([], [])
  {
    var stack := [Record(a, 1)];
    assert stack[..0] + stack[1..] == [];
    ClosingLine(Scan(stack, []), a, 3, 0);
  }

  /** `["<a>", "<br/>", "</a>"]` for any name and any skipped tag: valid. */
  lemma SkippedInside(a: string, c: string)
    requires PlainName(a) && SkippedContent(c)
    ensures CheckErrors(["<" + a + ">", "<" + c + ">", "<" + ("/" + a) + ">"]) == []
  {
    FirstOpening(a);
    SkippedLine(Scan([Record(a, 1)], []), c, 2);
    LoneClosing(a);
    ThreeLines("<" + a + ">", "<" + c + ">", "<" + ("/" + a) + ">",
      Scan([Record(a, 1)], []), Scan([Record(a, 1)], []), Scan([], []));
  }

  /** A line holding one tag `<c>` with classifiable content does not make the checker raise. */
  lemma OneTagScannable(c: string)
    requires '<' !in c && '>' !in c && |c| > 0 && !IsSpace(c[0]) && !IsSpace(c[|c| - 1])
    requires Classifiable(c)
    ensures LineScannable("<" + c + ">")
  {
    var line := "<" + c + ">";
    OneTagContent(c);
    assert TagScannable(line, 0, |line| - 1);
    assert Scannable(line, 0);
  }

  /** The lines of the examples above do not make the checker raise. */
  lemma PlainLinesScannable(a: string, c: string)
    requires PlainName(a) && SkippedContent(c)
    ensures LineScannable("<" + a + ">") && LineScannable("<" + ("/" + a) + ">") && LineScannable("<" + c + ">")
  {
    SingleWord(a);
    var d := "/" + a;
    assert d[1..] == a;
    assert '<' !in d && '>' !in d;
    OneTagScannable(a);
    OneTagScannable(d);
    OneTagScannable(c);
  }

  // ---------------------------------------------------------------------------------------------
  // Fixer properties

  /** An error the fixer acts on: its message holds one of the two phrases. */
  predicate Recognized(e: LineError)
  {
    Contains(e.message, "has no closing tag") || Contains(e.message, "Unexpected closing tag")
  }

  function RecognizedCount(errors: seq<LineError>): (r: nat)
    ensures r <= |errors|
  {
    if errors == [] then 0
    else RecognizedCount(errors[..|errors| - 1]) + if Recognized(errors[|errors| - 1]) then 1 else 0
  }

  /** Without errors the fixer returns the lines it was given and an empty log. */
  lemma FixNothing(lines: seq<string>)
    ensures AllFixable([], |lines|) && FixAll(lines, []) == Fixing(lines, [])
  {
  }

  /** One error adds one log entry when it is recognised and leaves the state alone otherwise;
      the entries already written stay. */
  lemma FixStepLog(f: Fixing, e: LineError)
    requires Fixable(e, |f.lines|)
    ensures var r := FixStep(f, e);
      if Recognized(e) then |r.log| == |f.log| + 1 && r.log[..|f.log|] == f.log else r == f
  {
  }

  /** The log holds exactly one entry per recognised error, in error order. */
  lemma {:induction false} FixLogCount(lines: seq<string>, errors: seq<LineError>, k: nat)
    requires k <= |errors| && AllFixable(errors, |lines|)
    ensures |FixPrefix(lines, errors, k).log| == RecognizedCount(errors[..k])
  {
    if k > 0 {
      FixLogCount(lines, errors, k - 1);
      FixPrefixStep(lines, errors, k);
      FixStepLog(FixPrefix(lines, errors, k - 1), errors[k - 1]);
      assert errors[..k][..k - 1] == errors[..k - 1];
    }
  }

  /** Every error the checker reports is recognised by the fixer. */
  lemma CheckErrorRecognized(lines: seq<string>, i: nat)
    requires i < |CheckErrors(lines)|
    ensures Recognized(CheckErrors(lines)[i])
  {
    ScanLinesOrdered(lines, |lines|);
    ReportRecognized(ScanLines(lines, |lines|), |lines|, i);
  }

  lemma ReportRecognized(st: Scan, k: int, i: nat)
    requires Ordered(st, k) && i < |Report(st)|
    ensures Recognized(Report(st)[i])
  {
    if i < |st.errors| {
      UnexpectedRecognized(st.errors[i]);
    } else {
      DrainRecognized(st.stack[|st.stack| - 1 - (i - |st.errors|)]);
    }
  }

  lemma UnexpectedRecognized(e: LineError)
    requires IsUnexpected(e.message)
    ensures Recognized(e)
  {
    UnexpectedPhrases(e.message);
  }

  lemma DrainRecognized(r: Record)
    ensures Recognized(LineError(r.line, NoClosingMessage(r.name)))
  {
    NoClosingMessageShape(r.name);
  }

  /** So the first `k` reported errors count `k` recognised ones. */
  lemma {:induction false} CheckErrorsRecognized(lines: seq<string>, k: nat)
    requires k <= |CheckErrors(lines)|
    ensures RecognizedCount(CheckErrors(lines)[..k]) == k
  {
    if k > 0 {
      var errs := CheckErrors(lines);
      CheckErrorsRecognized(lines, k - 1);
      assert errs[..k][..k - 1] == errs[..k - 1];
      CheckErrorRecognized(lines, k - 1);
      assert errs[..k][k - 1] == errs[k - 1];
    }
  }

  /** Checking and then fixing the same lines writes one log entry per reported error. */
  lemma CheckThenFix(lines: seq<string>)
    ensures AllFixable(CheckErrors(lines), |lines|)
    ensures |FixAll(lines, CheckErrors(lines)).log| == |CheckErrors(lines)|
  {
    var errs := CheckErrors(lines);
    CheckErrorsFixable(lines);
    FixLogCount(lines, errs, |errs|);
    CheckErrorsRecognized(lines, |errs|);
    assert errs[..|errs|] == errs;
  }

  /** The repair of an orphan closing tag at index `closing`: the opening tag is inserted as a
      line of its own exactly when the two lines before exist and are blank; otherwise only the
      nearest line among the two before that holds text becomes the opening tag followed by its
      stripped text and the closing line becomes the bare closing tag; nothing changes exactly
      when no such line exists and no line can be inserted. */
  lemma WrapOutcome(lines: seq<string>, closing: int, name: string)
    requires 0 <= closing < |lines|
    ensures var r := WrapFrom(lines, closing, name, 1);
      var inserts := closing >= 2 && Strip(lines[closing - 1]) == [] && Strip(lines[closing - 2]) == [];
      (|r| == |lines| + 1 <==> inserts)
      && (inserts ==> r == lines[..closing] + ["<" + name + ">"] + lines[closing..])
      && (!inserts ==>
            |r| == |lines|
            && (forall j :: 0 <= j < |lines| && j != closing && j != closing - 1 && j != closing - 2 ==> r[j] == lines[j])
            && (r == lines || r[closing] == "</" + name + ">"))
    ensures closing >= 1 && Strip(lines[closing - 1]) != [] ==>
      WrapFrom(lines, closing, name, 1)
        == lines[closing - 1 := "<" + name + "> " + Strip(lines[closing - 1])][closing := "</" + name + ">"]
    ensures closing >= 2 && Strip(lines[closing - 1]) == [] && Strip(lines[closing - 2]) != [] ==>
      WrapFrom(lines, closing, name, 1)
        == lines[closing - 2 := "<" + name + "> " + Strip(lines[closing - 2])][closing := "</" + name + ">"]
    ensures closing == 0 || (closing == 1 && Strip(lines[0]) == []) ==> WrapFrom(lines, closing, name, 1) == lines
  {
  }
}
