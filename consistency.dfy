/** consistency.py: the checker revision that reports malformed tags, keeps only tag names on its
    stack, and remembers in a side table, per name, every line on which that name was opened. */
module Consistency {
  import opened Common
  import opened PyStr

  /** The checker's state between two tags: `stack`, `unclosed_opening_tags` and `errors`. */
  datatype Scan = Scan(stack: seq<string>, table: map<string, seq<int>>, errors: seq<LineError>)

  /** The error text for a `<` without a later `>` on its line (written in short pieces, which
      the proofs about its letters look at one at a time). */
  const MalformedMessage: string :=
    "Malformed t" + "ag detected" + ". Tag is in" + "complete or" + " improperly" + " formatted."

  /** The error text for a closing tag that matches no open tag. */
  function UnexpectedMessage(name: string): string
  {
    "Unexpected closing tag: " + "</" + name + ">" + ". There is no matching opening tag."
  }

  /** The error text for a tag that is still open at the end of the input (no final period). */
  function NoClosingMessage(name: string): string
  {
    "<" + name + ">" + " has no closing tag"
  }

  /** The tag content can be classified without `.split()[0]` failing: a closing tag has a name
      after its `/`, and a tag that is not self-closing has a name. */
  predicate Classifiable(content: string)
  {
    if StartsWith(content, "/") then HasWord(content[1..]) else EndsWith(content, "/") || HasWord(content)
  }

  /** `start` is what `line.find("<", ...)` returned: -1, or the index of a `<`. */
  predicate TagStart(line: string, start: int)
  {
    start == -1 || (0 <= start < |line| && line[start] == '<')
  }

  /** Every tag the scan meets from `start` on, up to a `<` without `>`, has classifiable content. */
  predicate Scannable(line: string, start: int)
    requires TagStart(line, start)
    decreases if start < 0 then 0 else |line| - start, 1
  {
    start == -1 ||
    var end := Find(line, '>', start);
    end == -1 || TagScannable(line, start, end)
  }

  /** The tag from `start` to `end` is classifiable and so is the rest of the line. */
  predicate TagScannable(line: string, start: nat, end: nat)
    requires TagStart(line, start) && end == Find(line, '>', start)
    decreases |line| - start, 0
  {
    Classifiable(Strip(line[start + 1..end])) && Scannable(line, Find(line, '<', end))
  }

  /** The stripped line can be scanned from its first `<`. */
  predicate LineScannable(raw: string)
  {
    var line := Strip(raw);
    Scannable(line, Find(line, '<', 0))
  }

  /** Every line of `lines` can be scanned. */
  predicate AllScannable(lines: seq<string>)
  {
    forall i :: 0 <= i < |lines| ==> LineScannable(lines[i])
  }

  /** The lines recorded for `name`, or none. */
  function Recorded(table: map<string, seq<int>>, name: string): seq<int>
  {
    if name in table then table[name] else []
  }

  /** Where the reverse loop over `stack` stops: the highest index holding `name`, or -1. */
  function Topmost(stack: seq<string>, name: string): (r: int)
    ensures -1 <= r < |stack|
    ensures r >= 0 ==> stack[r] == name
    ensures forall j :: r < j < |stack| ==> stack[j] != name
  {
    if |stack| == 0 then -1
    else if stack[|stack| - 1] == name then |stack| - 1
    else Topmost(stack[..|stack| - 1], name)
  }

  /** What the scan makes of one tag. */
  datatype Tag = Closing(name: string) | SelfClosing | Opening(name: string)

  /** The `is_closing` and `is_self_closing` tests on a tag's stripped content, and the name read
      with `.split()[0]` (empty where the Python code raises). */
  function Classify(content: string): Tag
  {
    if StartsWith(content, "/") then Closing(FirstWord(content[1..]))
    else if EndsWith(content, "/") then SelfClosing
    else Opening(FirstWord(content))
  }

  /** One tag met on line `n`. */
  function Step(st: Scan, tag: Tag, n: int): Scan
  {
    match tag
    case Closing(name) =>
      var i := Topmost(st.stack, name);
      if i >= 0 then st.(stack := st.stack[..i] + st.stack[i + 1..])
      else st.(errors := st.errors + [LineError(n, UnexpectedMessage(name))])
    case SelfClosing => st
    case Opening(name) =>
      st.(stack := st.stack + [name], table := st.table[name := Recorded(st.table, name) + [n]])
  }

  /** The inner `while start != -1` loop from `start` on: a `<` without `>` ends it with one
      "Malformed tag" error. */
  function ScanFrom(st: Scan, line: string, start: int, n: int): Scan
    requires TagStart(line, start)
    decreases if start < 0 then 0 else |line| - start, 1
  {
    if start == -1 then st
    else
      var end := Find(line, '>', start);
      if end == -1 then st.(errors := st.errors + [LineError(n, MalformedMessage)])
      else ScanTag(st, line, start, end, n)
  }

  /** The tag between `start` and `end` is processed and the scan goes on after it; kept apart
      from `ScanFrom` so that reasoning about a whole line need not look into every tag. */
  function ScanTag(st: Scan, line: string, start: nat, end: nat, n: int): Scan
    requires TagStart(line, start) && end == Find(line, '>', start)
    decreases |line| - start, 0
  {
    ScanFrom(Step(st, Classify(Strip(line[start + 1..end])), n), line, Find(line, '<', end), n)
  }

  /** A scannable tag has classifiable content and leaves a scannable rest of the line. */
  lemma ScannableNext(line: string, start: nat)
    requires TagStart(line, start) && Scannable(line, start) && Find(line, '>', start) != -1
    ensures var end := Find(line, '>', start);
      Classifiable(Strip(line[start + 1..end])) && Scannable(line, Find(line, '<', end))
  {
    assert TagScannable(line, start, Find(line, '>', start));
  }

  /** One round of the inner loop: the tag from `start` to its `>` is processed. */
  lemma ScanFromTag(st: Scan, line: string, start: nat, n: int)
    requires TagStart(line, start) && Find(line, '>', start) != -1
    ensures var end := Find(line, '>', start);
      ScanFrom(st, line, start, n) == ScanFrom(Step(st, Classify(Strip(line[start + 1..end])), n), line, Find(line, '<', end), n)
  {
    assert ScanFrom(st, line, start, n) == ScanTag(st, line, start, Find(line, '>', start), n);
  }

  /** A `<` with no later `>` ends the line's scan: one "Malformed tag" error on that line goes
      after the errors found so far, and the stack and the side table stay as they were. */
  lemma MalformedStopsLine(st: Scan, line: string, start: nat, n: int)
    requires TagStart(line, start) && Find(line, '>', start) == -1
    ensures var r := ScanFrom(st, line, start, n);
      r.stack == st.stack && r.table == st.table
      && |r.errors| == |st.errors| + 1 && r.errors[..|st.errors|] == st.errors
      && r.errors[|st.errors|] == LineError(n, MalformedMessage)
  {
    var r := ScanFrom(st, line, start, n);
    assert r.errors == st.errors + [LineError(n, MalformedMessage)];
  }

  /** One pass of the outer loop: line `n`, stripped, scanned from its first `<`. */
  function ScanLine(st: Scan, raw: string, n: int): Scan
  {
    var line := Strip(raw);
    ScanFrom(st, line, Find(line, '<', 0), n)
  }

  /** The state after the first `k` lines. */
  function ScanLines(lines: seq<string>, k: nat): Scan
    requires k <= |lines|
    decreases k, 1
  {
    if k == 0 then Scan([], map[], []) else ScanAt(lines, k)
  }

  /** The state after line `k` (1-based), kept apart from `ScanLines` so that reasoning about the
      outer loop need not look into the scan of a line. */
  function ScanAt(lines: seq<string>, k: nat): Scan
    requires 1 <= k <= |lines|
    decreases k, 0
  {
    ScanLine(ScanLines(lines, k - 1), lines[k - 1], k)
  }

  /** The state after line `n` is the state after line `n - 1` with line `n` scanned. */
  lemma ScanNextLine(lines: seq<string>, n: nat, before: Scan, after: Scan)
    requires 1 <= n <= |lines|
    requires before == ScanLines(lines, n - 1) && after == ScanLine(before, lines[n - 1], n)
    ensures after == ScanLines(lines, n)
  {
    assert ScanLines(lines, n) == ScanAt(lines, n);
  }

  /** How often `name` is on `stack`. */
  function Count(stack: seq<string>, name: string): nat
  {
    if stack == [] then 0
    else Count(stack[..|stack| - 1], name) + if stack[|stack| - 1] == name then 1 else 0
  }

  /** Each name on the stack has at least as many recorded lines as it has stack entries, so
      the drain's `pop()` on the table always finds a line. */
  ghost predicate Covers(stack: seq<string>, table: map<string, seq<int>>)
  {
    forall name :: Count(stack, name) > 0 ==> name in table && Count(stack, name) <= |table[name]|
  }

  /** Popping the top of the stack and the last recorded line of its name keeps `Covers`. */
  lemma PopCovers(stack: seq<string>, table: map<string, seq<int>>)
    requires Covers(stack, table) && |stack| > 0
    ensures stack[|stack| - 1] in table && |table[stack[|stack| - 1]]| > 0
    ensures var name := stack[|stack| - 1];
      Covers(stack[..|stack| - 1], table[name := table[name][..|table[name]| - 1]])
  {
    var name := stack[|stack| - 1];
    assert Count(stack, name) > 0;
  }

  /** The final `while stack` loop: one error per stack entry, from the top down, each at the
      line popped from the end of its name's list. */
  function DrainErrors(stack: seq<string>, table: map<string, seq<int>>): (r: seq<LineError>)
    requires Covers(stack, table)
    ensures |r| == |stack|
    decreases |stack|
  {
    if stack == [] then []
    else
      PopCovers(stack, table);
      var name := stack[|stack| - 1];
      var recorded := table[name];
      [LineError(recorded[|recorded| - 1], NoClosingMessage(name))]
        + DrainErrors(stack[..|stack| - 1], table[name := recorded[..|recorded| - 1]])
  }

  // ---------------------------------------------------------------------------------------------
  // The table covers the stack

  lemma {:induction false} CountRemove(stack: seq<string>, i: nat, name: string)
    requires i < |stack|
    ensures Count(stack[..i] + stack[i + 1..], name) + (if stack[i] == name then 1 else 0) == Count(stack, name)
    decreases |stack|
  {
    var s := stack[..i] + stack[i + 1..];
    if i < |stack| - 1 {
      var init := stack[..|stack| - 1];
      CountRemove(init, i, name);
      assert s[..|s| - 1] == init[..i] + init[i + 1..];
      assert s[|s| - 1] == stack[|stack| - 1];
      assert init[i] == stack[i];
    } else {
      assert s == stack[..|stack| - 1];
    }
  }

  /** One tag keeps `Covers`. */
  lemma StepCovers(st: Scan, tag: Tag, n: int)
    requires Covers(st.stack, st.table)
    ensures var r := Step(st, tag, n); Covers(r.stack, r.table)
  {
    match tag
    case Closing(name) =>
      var i := Topmost(st.stack, name);
      if i >= 0 {
        RemoveCovers(st.stack, st.table, i);
      }
    case SelfClosing =>
    case Opening(name) =>
      PushCovers(st.stack, st.table, name, n);
  }

  lemma RemoveCovers(stack: seq<string>, table: map<string, seq<int>>, i: nat)
    requires Covers(stack, table) && i < |stack|
    ensures Covers(stack[..i] + stack[i + 1..], table)
  {
    forall name | Count(stack[..i] + stack[i + 1..], name) > 0
      ensures name in table && Count(stack[..i] + stack[i + 1..], name) <= |table[name]|
    {
      CountRemove(stack, i, name);
    }
  }

  lemma PushCovers(stack: seq<string>, table: map<string, seq<int>>, pushed: string, n: int)
    requires Covers(stack, table)
    ensures Covers(stack + [pushed], table[pushed := Recorded(table, pushed) + [n]])
  {
    var s := stack + [pushed];
    var t := table[pushed := Recorded(table, pushed) + [n]];
    forall name | Count(s, name) > 0
      ensures name in t && Count(s, name) <= |t[name]|
    {
      assert s[..|s| - 1] == stack;
    }
  }

  lemma {:induction false} ScanFromCovers(st: Scan, line: string, start: int, n: int)
    requires TagStart(line, start) && Covers(st.stack, st.table)
    ensures var r := ScanFrom(st, line, start, n); Covers(r.stack, r.table)
    decreases if start < 0 then 0 else |line| - start
  {
    if start != -1 {
      var end := Find(line, '>', start);
      if end != -1 {
        var tag := Classify(Strip(line[start + 1..end]));
        StepCovers(st, tag, n);
        ScanFromCovers(Step(st, tag, n), line, Find(line, '<', end), n);
        ScanFromTag(st, line, start, n);
      }
    }
  }

  /** After any number of lines the table covers the stack. */
  lemma {:induction false} ScanLinesCovers(lines: seq<string>, k: nat)
    requires k <= |lines|
    ensures var st := ScanLines(lines, k); Covers(st.stack, st.table)
  {
    if k > 0 {
      ScanLinesCovers(lines, k - 1);
      var st := ScanLines(lines, k - 1);
      var line := Strip(lines[k - 1]);
      ScanFromCovers(st, line, Find(line, '<', 0), k);
      ScanNextLine(lines, k, st, ScanLine(st, lines[k - 1], k));
    }
  }

  /** The error list `check_xml_consistency` returns: the scan's errors, then the drain's. */
  function CheckErrors(lines: seq<string>): (r: seq<LineError>)
    ensures var st := ScanLines(lines, |lines|); |r| == |st.errors| + |st.stack|
  {
    ScanLinesCovers(lines, |lines|);
    var st := ScanLines(lines, |lines|);
    st.errors + DrainErrors(st.stack, st.table)
  }

  // ---------------------------------------------------------------------------------------------
  // The checker as written

  /** The `for i in range(len(stack) - 1, -1, -1)` search of a closing tag. */
  method MatchClosing(stack: seq<string>, tagName: string) returns (rest: seq<string>, matched: bool)
    ensures matched <==> Topmost(stack, tagName) >= 0
    ensures var i := Topmost(stack, tagName);
      rest == if i >= 0 then stack[..i] + stack[i + 1..] else stack
  {
    rest := stack;
    matched := false;
    var i := |rest| - 1;
    while i >= 0
      invariant -1 <= i < |rest|
      invariant rest == stack && !matched
      invariant forall j :: i < j < |stack| ==> stack[j] != tagName
    {
      if rest[i] == tagName {
        rest := rest[..i] + rest[i + 1..];
        matched := true;
        break;
      }
      i := i - 1;
    }
  }

  /** An opening tag: its name is pushed and the line appended to the name's list, which is
      created empty first when the name is new. */
  method RecordOpening(st: Scan, tagName: string, lineNum: int) returns (r: Scan)
    ensures r == st.(stack := st.stack + [tagName], table := st.table[tagName := Recorded(st.table, tagName) + [lineNum]])
  {
    var stack, table := st.stack, st.table;
    stack := stack + [tagName];
    if tagName !in table {
      table := table[tagName := []];
    }
    table := table[tagName := table[tagName] + [lineNum]];
    r := st.(stack := stack, table := table);
  }

  /** The body of the inner loop for one tag whose stripped content is `tagContent`. */
  method ProcessTag(st: Scan, tagContent: string, lineNum: int) returns (r: Scan)
    requires Classifiable(tagContent)
    ensures r == Step(st, Classify(tagContent), lineNum)
  {
    r := st;
    var isClosing := StartsWith(tagContent, "/");
    var isSelfClosing := EndsWith(tagContent, "/");
    if isClosing {
      var tagName := FirstWord(tagContent[1..]);
      var stack, matched := MatchClosing(r.stack, tagName);
      r := r.(stack := stack);
      if !matched {
        r := r.(errors := r.errors + [LineError(lineNum, UnexpectedMessage(tagName))]);
      }
    } else if isSelfClosing {
    } else {
      var tagName := FirstWord(tagContent);
      r := RecordOpening(r, tagName, lineNum);
    }
  }

  /** The inner `while start != -1` loop over the tags of one stripped line. */
  method ScanTags(st: Scan, raw: string, lineNum: int) returns (r: Scan)
    requires LineScannable(raw)
    ensures r == ScanLine(st, raw, lineNum)
  {
    r := st;
    var line := Strip(raw);
    var start := Find(line, '<', 0);
    while start != -1
      invariant TagStart(line, start) && Scannable(line, start)
      invariant ScanFrom(r, line, start, lineNum) == ScanLine(st, raw, lineNum)
      decreases if start < 0 then 0 else |line| - start
    {
      var end := Find(line, '>', start);
      if end == -1 {
        r := r.(errors := r.errors + [LineError(lineNum, MalformedMessage)]);
        break;
      }
      ScannableNext(line, start);
      ScanFromTag(r, line, start, lineNum);
      var tagContent := Strip(line[start + 1..end]);
      r := ProcessTag(r, tagContent, lineNum);
      start := Find(line, '<', end);
    }
  }

  /** One pass of the outer loop: line `lineNum` of `xmlLines` is scanned. */
  method ScanNumberedLine(xmlLines: seq<string>, lineNum: nat, st: Scan) returns (r: Scan)
    requires 1 <= lineNum <= |xmlLines| && LineScannable(xmlLines[lineNum - 1])
    requires st == ScanLines(xmlLines, lineNum - 1)
    ensures r == ScanLines(xmlLines, lineNum)
  {
    r := ScanTags(st, xmlLines[lineNum - 1], lineNum);
    ScanNextLine(xmlLines, lineNum, st, r);
  }

  /** The outer `for line_num, line in enumerate(xml_lines, start=1)` loop. */
  method ScanAllLines(xmlLines: seq<string>) returns (r: Scan)
    requires AllScannable(xmlLines)
    ensures r == ScanLines(xmlLines, |xmlLines|)
  {
    r := Scan([], map[], []);
    var scanned := 0;
    while scanned < |xmlLines|
      invariant scanned <= |xmlLines|
      invariant r == ScanLines(xmlLines, scanned)
    {
      var lineNum := scanned + 1;
      r := ScanNumberedLine(xmlLines, lineNum, r);
      scanned := lineNum;
    }
  }

  /** The final `while stack` loop: pops every name and reports it at the last line recorded for
      it, which is popped from the table as well. */
  method DrainStack(st: Scan) returns (errors: seq<LineError>)
    requires Covers(st.stack, st.table)
    ensures errors == st.errors + DrainErrors(st.stack, st.table)
  {
    var stack, table := st.stack, st.table;
    errors := st.errors;
    while |stack| > 0
      invariant Covers(stack, table)
      invariant errors + DrainErrors(stack, table) == st.errors + DrainErrors(st.stack, st.table)
    {
      PopCovers(stack, table);
      var tagName := stack[|stack| - 1];
      stack := stack[..|stack| - 1];
      if tagName in table {
        var recorded := table[tagName];
        var line := recorded[|recorded| - 1];
        table := table[tagName := recorded[..|recorded| - 1]];
        errors := errors + [LineError(line, NoClosingMessage(tagName))];
      }
    }
  }

  /** `check_xml_consistency`. */
  method CheckXmlConsistency(xmlLines: seq<string>) returns (valid: bool, errors: seq<LineError>)
    requires AllScannable(xmlLines)
    ensures errors == CheckErrors(xmlLines)
    ensures valid <==> errors == []
  {
    var st := ScanAllLines(xmlLines);
    ScanLinesCovers(xmlLines, |xmlLines|);
    errors := DrainStack(st);
    valid := |errors| == 0;
  }

  // ---------------------------------------------------------------------------------------------
  // Properties

  /** How many of the entries of `stack` from index `i` on are `name`, added to those before. */
  lemma {:induction false} CountSplit(stack: seq<string>, i: nat, name: string)
    requires i <= |stack|
    ensures Count(stack[..i], name) + Count(stack[i..], name) == Count(stack, name)
    decreases |stack|
  {
    if i < |stack| {
      var init := stack[..|stack| - 1];
      CountSplit(init, i, name);
      assert init[..i] == stack[..i];
      assert stack[i..][..|stack[i..]| - 1] == init[i..];
    } else {
      assert stack[..i] == stack;
      assert stack[i..] == [];
    }
  }

  /** The drain's error number `j` is for the stack entry at index `|stack| - 1 - j`, last in
      first out, and is reported at the line `Count(stack[i..], name)` places from the end of
      its name's list: the latest opening of that name not used up by an entry above it,
      whichever opening the entry itself came from. */
  ghost predicate ReportedAt(stack: seq<string>, table: map<string, seq<int>>, e: LineError, j: nat)
    requires j < |stack|
  {
    var i := |stack| - 1 - j;
    var name := stack[i];
    name in table && 1 <= Count(stack[i..], name) <= |table[name]|
    && e == LineError(table[name][|table[name]| - Count(stack[i..], name)], NoClosingMessage(name))
  }

  lemma {:induction false} DrainReportsAt(stack: seq<string>, table: map<string, seq<int>>, j: nat)
    requires Covers(stack, table) && j < |stack|
    ensures ReportedAt(stack, table, DrainErrors(stack, table)[j], j)
    decreases |stack|
  {
    PopCovers(stack, table);
    var top := stack[|stack| - 1];
    var recorded := table[top];
    var init := stack[..|stack| - 1];
    var table' := table[top := recorded[..|recorded| - 1]];
    var r := DrainErrors(stack, table);
    var i := |stack| - 1 - j;
    var name := stack[i];
    var suffix := stack[i..];
    assert suffix[|suffix| - 1] == top;
    if j == 0 {
      assert suffix == [top];
      assert Count(suffix, name) == 1 by {
        assert suffix[..0] == [];
      }
    } else {
      DrainReportsAt(init, table', j - 1);
      assert suffix[..|suffix| - 1] == init[i..];
      assert init[i] == name;
      assert r[j] == DrainErrors(init, table')[j - 1];
      assert Count(suffix, name) == Count(init[i..], name) + if top == name then 1 else 0;
    }
  }

  /** The drain reports every stack entry, from the top down, as `ReportedAt` says. */
  lemma DrainReports(stack: seq<string>, table: map<string, seq<int>>)
    requires Covers(stack, table)
    ensures forall j :: 0 <= j < |stack| ==> ReportedAt(stack, table, DrainErrors(stack, table)[j], j)
  {
    forall j | 0 <= j < |stack| ensures ReportedAt(stack, table, DrainErrors(stack, table)[j], j) {
      DrainReportsAt(stack, table, j);
    }
  }

  /** The `if tag_name in unclosed_opening_tags` test of the drain never fails: every name on
      the stack has a list in the table with a line left for it. */
  lemma DrainGuardHolds(lines: seq<string>)
    ensures var st := ScanLines(lines, |lines|);
      forall name :: name in st.stack ==> name in st.table && Count(st.stack, name) <= |st.table[name]|
  {
    ScanLinesCovers(lines, |lines|);
    var st := ScanLines(lines, |lines|);
    forall name | name in st.stack
      ensures name in st.table && Count(st.stack, name) <= |st.table[name]|
    {
      var i :| 0 <= i < |st.stack| && st.stack[i] == name;
      CountSplit(st.stack, i, name);
      assert st.stack[i..][..1] == [name];
      CountSplit(st.stack[i..], 1, name);
    }
  }

  predicate IsUnexpected(message: string)
  {
    StartsWith(message, "Unexpected closing tag: </")
  }

  lemma UnexpectedStart(m: string, p: string, rest: string)
    requires p == "Unexpected closing tag: </" && m == p + rest
    ensures IsUnexpected(m) && m != MalformedMessage
  {
    assert m[..|p|] == p;
    assert m[0] == p[0] == 'U';
    assert MalformedMessage[0] == 'M';
  }

  /** Letters the "Malformed tag" message does not contain. */
  lemma MalformedLetters()
    ensures MalformedMessage[0] == 'M' && 'h' !in MalformedMessage && 'U' !in MalformedMessage
  {
    var a, b, c, d, e, f := "Malformed t", "ag detected", ". Tag is in", "complete or", " improperly", " formatted.";
    assert MalformedMessage == a + b + c + d + e + f;
    assert 'h' !in a && 'U' !in a && 'h' !in b && 'U' !in b && 'h' !in c && 'U' !in c;
    assert 'h' !in d && 'U' !in d && 'h' !in e && 'U' !in e && 'h' !in f && 'U' !in f;
  }

  lemma UnexpectedKind(name: string)
    ensures IsUnexpected(UnexpectedMessage(name)) && UnexpectedMessage(name) != MalformedMessage
  {
    var p := "Unexpected closing tag: </";
    assert UnexpectedMessage(name) == p + (name + ">" + ". There is no matching opening tag.");
    UnexpectedStart(UnexpectedMessage(name), p, name + ">" + ". There is no matching opening tag.");
  }

  /** The state after `k` lines: every recorded line and every scan error is on one of those
      lines, and every scan error is a "Malformed tag" or an "Unexpected closing tag" error. */
  ghost predicate Bounded(st: Scan, k: int)
  {
    (forall name, i :: name in st.table && 0 <= i < |st.table[name]| ==> 1 <= st.table[name][i] <= k)
    && (forall i :: 0 <= i < |st.errors| ==>
          1 <= st.errors[i].line <= k && (st.errors[i].message == MalformedMessage || IsUnexpected(st.errors[i].message)))
  }

  lemma PushBounded(st: Scan, name: string, n: int)
    requires Bounded(st, n) && n >= 1
    ensures Bounded(st.(stack := st.stack + [name], table := st.table[name := Recorded(st.table, name) + [n]]), n)
  {
    var table := st.table[name := Recorded(st.table, name) + [n]];
    forall x, i | x in table && 0 <= i < |table[x]| ensures 1 <= table[x][i] <= n {
      if x == name && i < |Recorded(st.table, name)| {
        assert table[x][i] == st.table[x][i];
      }
    }
  }

  lemma ReportBounded(st: Scan, name: string, n: int)
    requires Bounded(st, n) && n >= 1
    ensures Bounded(st.(errors := st.errors + [LineError(n, UnexpectedMessage(name))]), n)
  {
    UnexpectedKind(name);
  }

  lemma StepBounded(st: Scan, tag: Tag, n: int)
    requires Bounded(st, n) && n >= 1
    ensures Bounded(Step(st, tag, n), n)
  {
    match tag
    case Closing(name) =>
      if Topmost(st.stack, name) < 0 {
        ReportBounded(st, name, n);
      }
    case SelfClosing =>
    case Opening(name) =>
      PushBounded(st, name, n);
  }

  lemma {:induction false} ScanFromBounded(st: Scan, line: string, start: int, n: int)
    requires TagStart(line, start) && Bounded(st, n) && n >= 1
    ensures Bounded(ScanFrom(st, line, start, n), n)
    decreases if start < 0 then 0 else |line| - start
  {
    if start != -1 {
      var end := Find(line, '>', start);
      if end != -1 {
        var tag := Classify(Strip(line[start + 1..end]));
        StepBounded(st, tag, n);
        ScanFromBounded(Step(st, tag, n), line, Find(line, '<', end), n);
        ScanFromTag(st, line, start, n);
      }
    }
  }

  lemma {:induction false} ScanLinesBounded(lines: seq<string>, k: nat)
    requires k <= |lines|
    ensures Bounded(ScanLines(lines, k), k)
  {
    if k > 0 {
      ScanLinesBounded(lines, k - 1);
      var st := ScanLines(lines, k - 1);
      var line := Strip(lines[k - 1]);
      ScanFromBounded(st, line, Find(line, '<', 0), k);
      ScanNextLine(lines, k, st, ScanLine(st, lines[k - 1], k));
    }
  }

  /** The checker's error list: first the errors found while scanning, each a "Malformed tag" or
      an "Unexpected closing tag" error; then one "has no closing tag" error per stack entry,
      last in first out, at the line `ReportedAt` gives; every error is on a line of the input. */
  lemma CheckErrorsShape(lines: seq<string>)
    ensures var st := ScanLines(lines, |lines|);
      var errs := CheckErrors(lines);
      var m := |st.errors|;
      Covers(st.stack, st.table)
      && |errs| == m + |st.stack|
      && (forall i :: 0 <= i < m ==> errs[i].message == MalformedMessage || IsUnexpected(errs[i].message))
      && (forall i :: m <= i < |errs| ==> ReportedAt(st.stack, st.table, errs[i], i - m))
      && (forall i :: 0 <= i < |errs| ==> 1 <= errs[i].line <= |lines|)
  {
    var st := ScanLines(lines, |lines|);
    ScanLinesCovers(lines, |lines|);
    ScanLinesBounded(lines, |lines|);
    DrainReports(st.stack, st.table);
    var errs := CheckErrors(lines);
    var m := |st.errors|;
    forall i | m <= i < |errs| ensures 1 <= errs[i].line <= |lines| {
      assert ReportedAt(st.stack, st.table, errs[i], i - m);
    }
  }

  /** `after` is `before` with errors added, all on line `n`, of which only the last can be a
      "Malformed tag" error. */
  predicate AddedOnLine(before: seq<LineError>, after: seq<LineError>, n: int)
  {
    |before| <= |after| && after[..|before|] == before
    && forall i :: |before| <= i < |after| ==>
         after[i].line == n && (after[i].message == MalformedMessage ==> i == |after| - 1)
  }

  /** `after` is `before` or `before` with one error on line `n` that is not "Malformed tag". */
  predicate AtMostOneAdded(before: seq<LineError>, after: seq<LineError>, n: int)
  {
    after == before
    || (|after| == |before| + 1 && after[..|before|] == before
        && after[|before|].line == n && after[|before|].message != MalformedMessage)
  }

  lemma StepAdds(st: Scan, tag: Tag, n: int)
    ensures AtMostOneAdded(st.errors, Step(st, tag, n).errors, n)
  {
    if tag.Closing? {
      UnexpectedKind(tag.name);
    }
  }

  /** Within one line the scan only adds errors, all on that line, and a "Malformed tag" error
      can only be the last of them: scanning the line stops there. */
  lemma {:induction false} ScanFromAppends(st: Scan, line: string, start: int, n: int)
    requires TagStart(line, start)
    ensures AddedOnLine(st.errors, ScanFrom(st, line, start, n).errors, n)
    decreases if start < 0 then 0 else |line| - start
  {
    if start != -1 {
      var end := Find(line, '>', start);
      if end != -1 {
        var tag := Classify(Strip(line[start + 1..end]));
        var next := Step(st, tag, n);
        ScanFromAppends(next, line, Find(line, '<', end), n);
        StepAdds(st, tag, n);
        ScanFromTag(st, line, start, n);
        AddedThen(st.errors, next.errors, ScanFrom(st, line, start, n).errors, n);
      }
    }
  }

  /** Errors added by one tag, followed by errors added on the same line, were added on it. */
  lemma AddedThen(a: seq<LineError>, b: seq<LineError>, c: seq<LineError>, n: int)
    requires AtMostOneAdded(a, b, n) && AddedOnLine(b, c, n)
    ensures AddedOnLine(a, c, n)
  {
    if b != a {
      assert c[..|a|] == c[..|b|][..|a|];
      assert c[|a|] == b[|a|];
    }
  }

  /** A tag name the scan reads back whole: no whitespace, no brackets, neither closing nor
      self-closing. */
  predicate PlainName(w: string)
  {
    |w| > 0 && NoSpace(w) && '<' !in w && '>' !in w && w[0] != '/' && w[|w| - 1] != '/'
  }

  /** A line holding exactly one tag `<c>` is one `Step` with content `c`. */
  lemma OneTagLine(st: Scan, c: string, n: int)
    requires '<' !in c && '>' !in c && |c| > 0 && !IsSpace(c[0]) && !IsSpace(c[|c| - 1])
    ensures ScanLine(st, "<" + c + ">", n) == Step(st, Classify(c), n)
  {
    var line := "<" + c + ">";
    StripTrimmed(line);
    StripTrimmed(c);
    OneTagBrackets(c);
    ScanFromTag(st, line, 0, n);
  }

  /** A line holding only the opening tag `<a>`. */
  lemma OpeningLine(st: Scan, a: string, n: int)
    requires PlainName(a)
    ensures ScanLine(st, "<" + a + ">", n)
      == st.(stack := st.stack + [a], table := st.table[a := Recorded(st.table, a) + [n]])
  {
    SingleWord(a);
    assert Classify(a) == Opening(a);
    OneTagLine(st, a, n);
  }

  /** A line holding only the closing tag `</a>`, whose topmost entry is at index `i`. */
  lemma ClosingLine(st: Scan, a: string, n: int, i: nat)
    requires PlainName(a) && Topmost(st.stack, a) == i
    ensures ScanLine(st, "<" + ("/" + a) + ">", n) == st.(stack := st.stack[..i] + st.stack[i + 1..])
  {
    var c := "/" + a;
    assert c[1..] == a;
    SingleWord(a);
    assert '<' !in c && '>' !in c;
    assert !IsSpace(c[0]) && !IsSpace(c[|c| - 1]);
    assert Classify(c) == Closing(a);
    OneTagLine(st, c, n);
  }

  /** The scan of three lines, one line at a time. */
  lemma ThreeLines(l0: string, l1: string, l2: string, s1: Scan, s2: Scan, s3: Scan)
    requires ScanLine(Scan([], map[], []), l0, 1) == s1 && ScanLine(s1, l1, 2) == s2 && ScanLine(s2, l2, 3) == s3
    ensures ScanLines([l0, l1, l2], 3) == s3
  {
    var lines := [l0, l1, l2];
    ScanNextLine(lines, 1, Scan([], map[], []), s1);
    ScanNextLine(lines, 2, s1, s2);
    ScanNextLine(lines, 3, s2, s3);
  }

  lemma FirstOpening(a: string)
    requires PlainName(a)
    ensures ScanLine(Scan([], map[], []), "<" + a + ">", 1) == Scan([a], map[a := [1]], [])
  {
    assert [] + [a] == [a] && [] + [1] == [1];
    OpeningLine(Scan([], map[], []), a, 1);
  }

  lemma SecondOpening(a: string)
    requires PlainName(a)
    ensures ScanLine(Scan([a], map[a := [1]], []), "<" + a + ">", 2) == Scan([a, a], map[a := [1, 2]], [])
  {
    var st := Scan([a], map[a := [1]], []);
    assert Recorded(st.table, a) + [2] == [1, 2];
    assert st.table[a := [1, 2]] == map[a := [1, 2]];
    assert st.stack + [a] == [a, a];
    OpeningLine(st, a, 2);
  }

  lemma InnerClosing(a: string)
    requires PlainName(a)
    ensures ScanLine(Scan([a, a], map[a := [1, 2]], []), "<" + ("/" + a) + ">", 3) == Scan([a], map[a := [1, 2]], [])
  {
    var stack := [a, a];
    assert stack[..1] + stack[2..] == [a];
    ClosingLine(Scan(stack, map[a := [1, 2]], []), a, 3, 1);
  }

  /** The scan of `["<a>", "<a>", "</a>"]` leaves the outer `<a>` open with both lines recorded. */
  lemma RepeatedScan(a: string)
    requires PlainName(a)
    ensures ScanLines(["<" + a + ">", "<" + a + ">", "<" + ("/" + a) + ">"], 3) == Scan([a], map[a := [1, 2]], [])
  {
    FirstOpening(a);
    SecondOpening(a);
    InnerClosing(a);
    ThreeLines("<" + a + ">", "<" + a + ">", "<" + ("/" + a) + ">",
      Scan([a], map[a := [1]], []), Scan([a, a], map[a := [1, 2]], []), Scan([a], map[a := [1, 2]], []));
  }

  /** The drain of that state reports the open `<a>` at the last line recorded for it. */
  lemma RepeatedDrain(a: string)
    ensures Covers([a], map[a := [1, 2]])
    ensures DrainErrors([a], map[a := [1, 2]]) == [LineError(2, NoClosingMessage(a))]
  {
    var stack := [a];
    assert Count(stack, a) == 1 by {
      assert stack[..0] == [];
    }
    DrainReportsAt(stack, map[a := [1, 2]], 0);
    assert stack[0..] == [a];
  }

  /** `["<a>", "<a>", "</a>"]`: the closing tag matches the inner `<a>`, yet the drain reports
      the remaining `<a>` at line 2, the last line recorded for the name, and not at line 1. */
  lemma RepeatedName(a: string)
    requires PlainName(a)
    ensures CheckErrors(["<" + a + ">", "<" + a + ">", "<" + ("/" + a) + ">"]) == [LineError(2, NoClosingMessage(a))]
  {
    RepeatedScan(a);
    RepeatedDrain(a);
  }

  /** A line holding one plain opening or closing tag does not make the checker raise. */
  lemma PlainLineScannable(a: string)
    requires PlainName(a)
    ensures LineScannable("<" + a + ">") && LineScannable("<" + ("/" + a) + ">")
  {
    SingleWord(a);
    var c := "/" + a;
    assert c[1..] == a;
    assert '<' !in c && '>' !in c;
    OneTagScannable(a);
    OneTagScannable(c);
  }

  lemma OneTagScannable(c: string)
    requires '<' !in c && '>' !in c && |c| > 0 && !IsSpace(c[0]) && !IsSpace(c[|c| - 1])
    requires Classifiable(c)
    ensures LineScannable("<" + c + ">")
  {
    var line := "<" + c + ">";
    StripTrimmed(line);
    StripTrimmed(c);
    OneTagBrackets(c);
    assert Scannable(line, -1);
  }
}
