/** The repair steps that GUI/CONSISTENCY.py and fix_consistency.py share word for word:
    recovering a tag name from an error message, and inserting a marked closing-tag line
    after the opening line of a tag that was never closed. */
module Repair {
  import opened PyStr

  /** A fixer's result: `fixed_lines` and `error_log`. */
  datatype Fixing = Fixing(lines: seq<string>, log: seq<string>)

  /** The log entry for an orphan closing tag that got its opening tag. */
  function AddOpeningLog(name: string, lineNum: int): string
  {
    "Added missing opening tag <" + name + "> on line " + IntToStr(lineNum) + " for existing closing tag."
  }

  /** `msg.split("<")[1].split(">")[0]`: the tag name of a "has no closing tag" message. */
  function OpenedName(msg: string): string
    requires Contains(msg, "<")
  {
    Before(After(msg, "<"), ">")
  }

  /** `msg.split("</")[1].split(">")[0]`: the tag name of an "Unexpected closing tag" message. */
  function ClosedName(msg: string): string
    requires Contains(msg, "</")
  {
    Before(After(msg, "</"), ">")
  }

  /** A string in which `sub` cannot start: its first character never occurs. */
  lemma NoOccurrence(s: string, sub: string)
    requires |sub| > 0 && sub[0] !in s
    ensures IndexOf(s, sub) == -1
  {
    OccurrenceStart(s, sub);
  }

  /** An occurrence of `sub` starts with the first character of `sub`. */
  lemma OccurrenceStart(s: string, sub: string)
    requires |sub| > 0
    ensures forall i :: 0 <= i && OccursAt(s, sub, i) ==> s[i] == sub[0]
  {
    forall i | 0 <= i && OccursAt(s, sub, i) ensures s[i] == sub[0] {
      assert s[i..i + |sub|][0] == s[i];
    }
  }

  /** `sub` is first found right after a prefix in which its first character never occurs. */
  lemma FirstOccurrenceAfter(p: string, q: string, sub: string)
    requires |sub| > 0 && sub[0] !in p && OccursAt(q, sub, 0)
    ensures IndexOf(p + q, sub) == |p|
  {
    var s := p + q;
    assert s[|p|..|p| + |sub|] == q[..|sub|];
    assert OccursAt(s, sub, |p|);
    forall i | 0 <= i < |p| ensures s[i] != sub[0] {
      assert s[i] == p[i];
    }
    OccurrenceStart(s, sub);
  }

  /** The name extraction round trip: a message `prefix + sep + name + ">" + rest` gives back `name`
      when neither the prefix nor what follows `sep` holds a `<`, and `name` holds no `>`. */
  lemma {:induction false} NameBetween(prefix: string, sep: string, name: string, rest: string)
    requires |sep| > 0 && sep[0] == '<'
    requires '<' !in prefix && '<' !in name && '>' !in name && '<' !in rest
    ensures Contains(prefix + sep + name + ">" + rest, sep)
    ensures After(prefix + sep + name + ">" + rest, sep) == name + ">" + rest
    ensures Before(name + ">" + rest, ">") == name
  {
    var tail := name + ">" + rest;
    assert prefix + sep + name + ">" + rest == prefix + sep + tail;
    AfterSeparator(prefix, sep, tail);
    assert '<' !in tail by {
      assert tail == name + (">" + rest);
    }
    NoOccurrence(tail, sep);
    NameBeforeBracket(name, rest);
  }

  lemma AfterSeparator(prefix: string, sep: string, tail: string)
    requires |sep| > 0 && sep[0] !in prefix
    ensures prefix + sep + tail == prefix + (sep + tail)
    ensures IndexOf(prefix + sep + tail, sep) == |prefix|
    ensures (prefix + sep + tail)[|prefix| + |sep|..] == tail
  {
    assert prefix + sep + tail == prefix + (sep + tail);
    assert OccursAt(sep + tail, sep, 0);
    FirstOccurrenceAfter(prefix, sep + tail, sep);
  }

  lemma NameBeforeBracket(name: string, rest: string)
    requires '>' !in name
    ensures Before(name + ">" + rest, ">") == name
  {
    assert name + ">" + rest == name + (">" + rest);
    assert OccursAt(">" + rest, ">", 0);
    FirstOccurrenceAfter(name, ">" + rest, ">");
    assert (name + ">" + rest)[..|name|] == name;
  }

  /** A message that starts like an "Unexpected closing tag" message holds every phrase the
      fixers look for in one. */
  lemma UnexpectedPhrases(m: string)
    requires StartsWith(m, "Unexpected closing tag: </")
    ensures Contains(m, "</") && Contains(m, "<") && Contains(m, "Unexpected closing tag")
  {
    var p := "Unexpected closing tag: </";
    assert m == p + m[|p|..];
    assert p == "Unexpected closing tag: " + "</" + [];
    ConcatContains("Unexpected closing tag: ", "</", []);
    ContainsBefore(p, m[|p|..], "</");
    assert p == "Unexpected closing tag: " + "<" + "/";
    ConcatContains("Unexpected closing tag: ", "<", "/");
    ContainsBefore(p, m[|p|..], "<");
    assert p == [] + "Unexpected closing tag" + ": </";
    ConcatContains([], "Unexpected closing tag", ": </");
    ContainsBefore(p, m[|p|..], "Unexpected closing tag");
  }

  /** The first index `>= i` whose line contains `pat`, or -1. */
  function FirstContaining(lines: seq<string>, pat: string, i: nat): (r: int)
    ensures r == -1 || (i <= r < |lines| && Contains(lines[r], pat))
    ensures forall j :: i <= j < |lines| && (r == -1 || j < r) ==> !Contains(lines[j], pat)
    decreases |lines| - i
  {
    if i >= |lines| then -1
    else if Contains(lines[i], pat) then i
    else FirstContaining(lines, pat, i + 1)
  }

  /** The index the search for the opening line settles on: the first line from `from` on that
      contains `<name`, or `from` itself when there is none. */
  function OpenLine(lines: seq<string>, name: string, from: nat): (o: nat)
    ensures o == from || (from < o < |lines|) || (o == from < |lines|)
    ensures o < |lines| && Contains(lines[o], "<" + name) ==> forall j :: from <= j < o ==> !Contains(lines[j], "<" + name)
    ensures o != from ==> Contains(lines[o], "<" + name)
    ensures (forall j :: from <= j < |lines| ==> !Contains(lines[j], "<" + name)) ==> o == from
  {
    var r := FirstContaining(lines, "<" + name, from);
    if r == -1 then from else r
  }

  /** A line at which the search for the insertion point stops. */
  predicate IsBoundary(line: string)
  {
    StartsWith(Strip(line), "</") || Contains(Strip(line), "<")
  }

  /** The first boundary line at index `>= i`, or -1. */
  function FirstBoundary(lines: seq<string>, i: nat): (r: int)
    ensures r == -1 || (i <= r < |lines| && IsBoundary(lines[r]))
    ensures forall j :: i <= j < |lines| && (r == -1 || j < r) ==> !IsBoundary(lines[j])
    decreases |lines| - i
  {
    if i >= |lines| then -1
    else if IsBoundary(lines[i]) then i
    else FirstBoundary(lines, i + 1)
  }

  /** `insertion_point` after its loop: the first boundary line after `open`, else the end of
      the list (or `open + 1` when `open` is already past the end). */
  function InsertionPoint(lines: seq<string>, open: nat): (p: nat)
    ensures p > open
    ensures p < |lines| ==> IsBoundary(lines[p])
    ensures forall j :: open < j < p && j < |lines| ==> !IsBoundary(lines[j])
    ensures p <= |lines| || p == open + 1
  {
    var b := FirstBoundary(lines, open + 1);
    if b != -1 then b else if open + 1 <= |lines| then |lines| else open + 1
  }

  /** The line inserted for a tag without closing tag. */
  function MissingCloseLine(name: string): string
  {
    "</" + name + "><!-- Error fixed: Added missing closing tag for <" + name + "> -->\n"
  }

  /** The log entry for that insertion. */
  function MissingCloseLog(name: string, lineNum: int): string
  {
    "Added closing tag </" + name + "> for <" + name + "> starting on line " + IntToStr(lineNum)
  }

  /** The position at which the closing line for `name`, reported at `lineNum`, is inserted. */
  function ClosePosition(lines: seq<string>, name: string, lineNum: int): (p: nat)
    requires lineNum >= 1
    ensures p <= |lines|
    ensures p < |lines| ==> IsBoundary(lines[p])
    ensures var o := OpenLine(lines, name, lineNum - 1);
      (o < p || p == |lines|) && forall j :: o < j < p ==> !IsBoundary(lines[j])
  {
    var p := InsertionPoint(lines, OpenLine(lines, name, lineNum - 1));
    if p > |lines| then |lines| else p
  }

  /** The "has no closing tag" repair: the marked closing line is inserted at `ClosePosition`,
      and every existing line keeps its text and its order. */
  function AddMissingClose(lines: seq<string>, name: string, lineNum: int): (r: seq<string>)
    requires lineNum >= 1
    ensures |r| == |lines| + 1
    ensures var p := ClosePosition(lines, name, lineNum);
      r[..p] == lines[..p] && r[p] == MissingCloseLine(name) && r[p + 1..] == lines[p..]
  {
    InsertAt(lines, InsertionPoint(lines, OpenLine(lines, name, lineNum - 1)), MissingCloseLine(name))
  }

  /** The first loop of the "has no closing tag" branch: locating the opening line. */
  method LocateOpenLine(fixedLines: seq<string>, tagName: string, lineNum: int) returns (openTagLine: nat)
    requires lineNum >= 1
    ensures openTagLine == OpenLine(fixedLines, tagName, lineNum - 1)
  {
    openTagLine := lineNum - 1;
    var i := lineNum - 1;
    while i < |fixedLines|
      invariant lineNum - 1 <= i
      invariant openTagLine == lineNum - 1
      invariant FirstContaining(fixedLines, "<" + tagName, lineNum - 1) == FirstContaining(fixedLines, "<" + tagName, i)
    {
      if Contains(fixedLines[i], "<" + tagName) {
        openTagLine := i;
        break;
      }
      i := i + 1;
    }
  }

  /** The second loop of that branch: the index before which the closing line goes. */
  method FindInsertionPoint(fixedLines: seq<string>, openTagLine: nat) returns (insertionPoint: nat)
    ensures insertionPoint == InsertionPoint(fixedLines, openTagLine)
  {
    insertionPoint := openTagLine + 1;
    var i := openTagLine + 1;
    while i < |fixedLines|
      invariant insertionPoint == i
      invariant i == openTagLine + 1 || i <= |fixedLines|
      invariant FirstBoundary(fixedLines, openTagLine + 1) == FirstBoundary(fixedLines, i)
    {
      if IsBoundary(fixedLines[i]) {
        break;
      }
      insertionPoint := i + 1;
      i := i + 1;
    }
  }
}
