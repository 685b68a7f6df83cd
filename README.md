# XML editor core, modelled in Dafny

This project models the core of a small Python XML tool that works line by line and character by
character on XML text, without a real XML parser. The tool has:

- two consistency checkers: the GUI's `check_xml_consistency` and the stand-alone `consistency.py`.
  Each keeps a stack of open tags, reports closing tags with no match, and drains the stack into
  "has no closing tag" errors.
- two fixers: the GUI's `fix_xml_consistency` and `fix_consistency.py`. Each rewrites the list of
  lines error by error and keeps a log.
- an XML-to-JSON converter (`json_utils.py`). It has a regex tokenizer, tag predicates, a parser that
  builds nested dicts through a stack of aliased dicts, and a hand-written `custom_dumps`.
- a minifier (`MINIFYING.py`).
- a follower graph (`XMLGRAPH.py`): a `Graph` class over an adjacency dict, and the line-driven
  `parse_xml_to_graph`.
- a byte-pair-encoding compressor and its decompressor (`COMPRESSION.py`, `DECOMPRESSION.py`).

Each Python function that loops and updates variables is a Dafny `method` with a `while` loop. Its
`ensures` ties the result to a specification function, and lemmas about that function state what the
tool promises. Pure expressions are functions. `Graph` is a class whose fields the methods update.
The parser's dicts live in a `Store` class, a heap of objects indexed by identity, so that the
aliasing between `stack` and the nested values is explicit.

Files and modules:

- `common.dfy` (`Common`): `Option`, `Result`, and the `(line, message)` error tuple.
- `py_str.dfy` (`PyStr`): the Python string built-ins the tool uses (`strip`, `find`, `in`,
  `split(...)[k]`, `replace`, `join`, `startswith`/`endswith`), with their properties.
- `gui_consistency.dfy` (`GuiConsistency`): GUI/CONSISTENCY.py.
- `consistency.dfy` (`Consistency`): consistency.py.
- `repair.dfy` (`Repair`): the "has no closing tag" repair, which both fixers share.
- `fix_consistency.dfy` (`FixConsistency`): fix_consistency.py.
- `json_tokens.dfy`, `json_parse.dfy`, `json_dumps.dfy`: GUI/json_utils.py.
- `minifying.dfy`: GUI/MINIFYING.py.
- `xml_graph.dfy`: GUI/XMLGRAPH.py.
- `compression.dfy`: GUI/COMPRESSION.py.
- `decompression.dfy`: GUI/DECOMPRESSION.py.

## Model

| member | source | states |
|---|---|---|
| GuiConsistency.CheckXmlConsistency | GUI/CONSISTENCY.py:3-68 | the returned errors are exactly the checker's error list for the lines, and the flag is true iff that list is empty |
| GuiConsistency.ScanAllLines | GUI/CONSISTENCY.py:7-55 | after the per-line loop, the tag list and errors equal the scan of all lines |
| GuiConsistency.ScanNumberedLine | GUI/CONSISTENCY.py:7-9 | processing line `n` (numbered from 1) moves the scan of the first `n - 1` lines to the scan of the first `n` |
| GuiConsistency.ScanTags | GUI/CONSISTENCY.py:10-55 | the inner `find("<")`/`find(">")` loop over one stripped line equals the line's scan |
| GuiConsistency.ProcessTag | GUI/CONSISTENCY.py:15-52 | one tag: a closing tag removes the topmost entry with its name or logs "Unexpected closing tag"; self-closing and `!` tags change nothing; any other tag is pushed with its line |
| GuiConsistency.MatchClosing | GUI/CONSISTENCY.py:24-32 | the backward search matches iff an entry with that name exists, and removes exactly the topmost such entry |
| GuiConsistency.TopmostMatch | GUI/CONSISTENCY.py:26-32 | the index found holds the name and no later entry does; -1 when no entry holds it |
| GuiConsistency.DrainTagList | GUI/CONSISTENCY.py:58-65 | draining appends one "has no closing tag" error per entry left, most recent first, each at its own opening line |
| GuiConsistency.DrainErrors | GUI/CONSISTENCY.py:58-65 | the k-th drain error names the k-th entry from the top of the stack, at its line |
| GuiConsistency.CloseRemovesTopmost | GUI/CONSISTENCY.py:21-41 | a closing tag whose name is open removes exactly the topmost such entry and logs nothing; otherwise it leaves the stack and appends an "Unexpected closing tag" error on its line |
| GuiConsistency.CheckErrorsShape | GUI/CONSISTENCY.py:3-68 | every error is "Unexpected…" or "…has no closing tag", the unexpected ones come first in line order, the unclosed ones follow in reverse line order, and every line number is within 1..number of lines |
| GuiConsistency.ReportShape | GUI/CONSISTENCY.py:58-68 | the same ordering and line bounds for the report of any scan state whose entries are ordered |
| GuiConsistency.ScanLinesOrdered | GUI/CONSISTENCY.py:7-55 | after `k` lines, the tag list is ordered by line, errors are ordered, and all lines are within 1..k |
| GuiConsistency.RepeatedName | GUI/CONSISTENCY.py:47-65 | `<a>`,`<a>`,`</a>` reports line 1 as unclosed, because each entry carries its own line |
| GuiConsistency.InnerUnclosed | GUI/CONSISTENCY.py:21-65 | `<a>`,`<b>`,`</a>` closes `a` past `b` and reports only `<b>` on line 2 |
| GuiConsistency.SkippedInside | GUI/CONSISTENCY.py:43-45 | a self-closing or comment tag between `<a>` and `</a>` leaves the document error-free |
| GuiConsistency.IgnoredTag | GUI/CONSISTENCY.py:17-18 | content ending in `/` or starting with `!` (and not with `/`) is ignored |
| GuiConsistency.ReadsOpening | GUI/CONSISTENCY.py:47-52 | a plain word content is an opening tag of that name |
| GuiConsistency.ReadsClosing | GUI/CONSISTENCY.py:21-23 | `/name` is a closing tag of `name` |
| GuiConsistency.LoneClosing | GUI/CONSISTENCY.py:24-32 | a closing tag that matches the only entry empties the list |
| GuiConsistency.OneTagLine | GUI/CONSISTENCY.py:6-55 | a line holding one tag `<c>` is scanned as that single tag |
| GuiConsistency.UnexpectedNameRoundTrip | GUI/CONSISTENCY.py:107 | the fixer's `split("</")[1].split(">")[0]` recovers the name from the checker's "Unexpected closing tag" message |
| GuiConsistency.NoClosingNameRoundTrip | GUI/CONSISTENCY.py:78 | `split("<")[1].split(">")[0]` recovers the name from the checker's "has no closing tag" message |
| GuiConsistency.UnexpectedMessageShape | GUI/CONSISTENCY.py:35-40 | the unexpected-closing message contains the phrase the fixer tests for, and not the other one |
| GuiConsistency.NoClosingMessageShape | GUI/CONSISTENCY.py:59-65 | the unclosed message contains "has no closing tag" and not "Unexpected closing tag" |
| GuiConsistency.FixXmlConsistency | GUI/CONSISTENCY.py:71-137 | the fixed lines and log equal the fold of the per-error fix over the error list, in order |
| GuiConsistency.FixOne | GUI/CONSISTENCY.py:75-135 | one error: an unclosed error inserts a closing line, an unexpected error wraps, any other message changes nothing |
| GuiConsistency.FixStep | GUI/CONSISTENCY.py:75-135 | a fix step never removes lines |
| GuiConsistency.UnclosedFix | GUI/CONSISTENCY.py:76-103 | an unclosed fix adds exactly one line and logs the closing tag it added |
| GuiConsistency.WrapFix | GUI/CONSISTENCY.py:105-135 | a wrap fix never removes lines and logs the opening tag it added |
| GuiConsistency.WrapClosing | GUI/CONSISTENCY.py:113-130 | the two-line backward search equals the wrap function on the closing line |
| GuiConsistency.WrapOutcome | GUI/CONSISTENCY.py:113-130 | a line is inserted iff the two lines above exist and are blank, and then it is the opening tag, just before the closing line; otherwise the nearest line among the two above that holds text becomes `<name> ` plus its stripped text and the closing line becomes `</name>`, every other line staying as it was; nothing changes exactly when the closing line is the first, or the second with a blank first line |
| GuiConsistency.CheckThenFix | GUI/CONSISTENCY.py:71-137 | every error the checker reports is one the fixer can take, and the fixer logs exactly one entry per error |
| GuiConsistency.FixLogCount | GUI/CONSISTENCY.py:75-135 | the log has one entry per error whose message names one of the two fixable kinds |
| GuiConsistency.FixStepLog | GUI/CONSISTENCY.py:75-135 | a recognised error adds one log entry and keeps the earlier ones; an unrecognised one changes nothing |
| GuiConsistency.FixNothing | GUI/CONSISTENCY.py:72-75 | with no errors the lines come back unchanged with an empty log |
| GuiConsistency.CheckErrorsFixable | GUI/CONSISTENCY.py:68 | every error line the checker reports is a valid line for the fixer |
| GuiConsistency.CheckErrorsRecognized | GUI/CONSISTENCY.py:35-65 | every reported error has one of the two recognised kinds |
| Repair.AddMissingClose | GUI/CONSISTENCY.py:97-100 | the closing-tag line is inserted at the computed position and every other line keeps its order |
| Repair.ClosePosition | fix_consistency.py:15-30 | the insertion point is after the opening line, at the first boundary line after it, or at the end |
| Repair.LocateOpenLine | fix_consistency.py:16-20 | the search finds the first line at or after the error line that contains `<name`, and stays on the error line when there is none |
| Repair.OpenLine | GUI/CONSISTENCY.py:80-85 | the line found is the first at or after the start that contains `<name`, or the start when none does |
| Repair.FindInsertionPoint | fix_consistency.py:23-30 | the loop stops at the first line after the opening line that starts with `</` or contains `<` |
| Repair.InsertionPoint | GUI/CONSISTENCY.py:88-95 | the point lies after the opening line, lands on a boundary line (or past the end), and no line before it is a boundary |
| Repair.FirstContaining | GUI/CONSISTENCY.py:82-85 | the index found is the first at or after `i` whose line contains the pattern, or -1 |
| Repair.NameBetween | fix_consistency.py:13 | splitting at the first separator and then at the first `>` yields the name written between them |
| Consistency.CheckXmlConsistency | consistency.py:17-74 | the returned errors are the checker's error list, and the flag is true iff it is empty |
| Consistency.ScanAllLines | consistency.py:22-64 | the per-line loop computes the scan of all lines |
| Consistency.ScanNumberedLine | consistency.py:22-25 | line `n` extends the scan of `n - 1` lines to `n` |
| Consistency.ScanTags | consistency.py:25-64 | the inner tag loop of one line equals its scan, including the stop on a malformed tag |
| Consistency.ProcessTag | consistency.py:32-61 | one well-formed tag updates the stack, the line table and the errors as its kind demands |
| Consistency.MatchClosing | consistency.py:37-44 | a match happens iff the name is on the stack, and then only the topmost copy is removed |
| Consistency.RecordOpening | consistency.py:55-61 | an opening tag is pushed and its line appended to the list recorded for its name |
| Consistency.Topmost | consistency.py:39-44 | the index holds the name and no later entry does; -1 when none does |
| Consistency.DrainStack | consistency.py:67-71 | draining appends one "has no closing tag" error per stacked name, most recent first |
| Consistency.DrainErrors | consistency.py:67-71 | one drain error per stacked name |
| Consistency.DrainReports | consistency.py:67-71 | each drain error names its stack entry and takes the last line still recorded for that name |
| Consistency.DrainGuardHolds | consistency.py:59-71 | every stacked name has a line list at least as long as its number of copies on the stack, so the `in` guard always holds and `pop()` never fails |
| Consistency.CheckErrors | consistency.py:17-74 | the result has one error per malformed or unexpected tag plus one per stacked name |
| Consistency.CheckErrorsShape | consistency.py:17-74 | the scan errors are malformed or unexpected, the drain errors are as `DrainReports` says, and every line is within 1..number of lines |
| Consistency.ScanLinesBounded | consistency.py:22-64 | after `k` lines every recorded and reported line is within 1..k |
| Consistency.MalformedStopsLine | consistency.py:25-30 | a `<` with no later `>` on the line adds exactly one malformed-tag error for that line, after the earlier errors, and stops the line with the stack and the table unchanged |
| Consistency.ScanFromAppends | consistency.py:25-64 | scanning one line only appends errors, all on that line |
| Consistency.StepAdds | consistency.py:36-61 | one tag adds at most one error, on its own line |
| Consistency.RepeatedName | consistency.py:59-71 | `<a>`,`<a>`,`</a>` reports line 2 as unclosed: the drain pops the most recent recorded line, not the line of the unmatched tag |
| Consistency.InnerClosing | consistency.py:39-44 | closing `a` with two open copies removes the top one and keeps both recorded lines |
| Consistency.MalformedLetters | consistency.py:29 | the malformed message contains neither "has no closing tag" nor "Unexpected", so the fixer reaches its third branch |
| Consistency.UnexpectedKind | consistency.py:48 | the unexpected message is recognised as such and differs from the malformed one |
| FixConsistency.FixXmlConsistency | fix_consistency.py:6-77 | the fixed lines and log equal the fold of the per-error fix over the error list |
| FixConsistency.FixOne | fix_consistency.py:10-74 | one error is fixed by the branch its message selects |
| FixConsistency.FixUnclosed | fix_consistency.py:11-38 | the closing-tag line is inserted where `Repair.ClosePosition` says and the log names the tag and line |
| FixConsistency.FixOrphan | fix_consistency.py:40-64 | only the error line is rewritten, and one log entry is added |
| FixConsistency.FixBracket | fix_consistency.py:66-74 | a line with `<` that does not end in `>` gets `>` appended and a log entry; any other line is left alone and nothing is logged |
| FixConsistency.FixStep | fix_consistency.py:10-74 | a step adds at most one line and at most one log entry |
| FixConsistency.FixPrefix | fix_consistency.py:10-74 | after `k` errors, there are at most `k` more lines and at most `k` log entries |
| FixConsistency.StepKinds | fix_consistency.py:11-66 | the message selects the branch, in the source's order of tests |
| FixConsistency.UnclosedInserts | fix_consistency.py:32-38 | the unclosed fix is an insertion of the closing line at the computed position |
| FixConsistency.OneLineRewritten | fix_consistency.py:40-74 | the orphan and bracket fixes change no line other than the error line and keep the line count |
| FixConsistency.OrphanRewrite | fix_consistency.py:45-64 | with text left after removing `</name>`, the line becomes `<name>text</name>` and "Added missing opening tag" is logged; otherwise the line is commented out and "Removed redundant closing tag" is logged |
| FixConsistency.OrphanAlone | fix_consistency.py:57-61 | a bare `</name>` line is commented out with the fixed-error note |
| FixConsistency.OrphanAfterText | fix_consistency.py:49-53 | `x</name>` becomes `<name>x</name>` |
| FixConsistency.BracketRewrite | fix_consistency.py:66-74 | a missing `>` is appended, after which the line no longer misses one; otherwise nothing changes |
| FixConsistency.BracketSettles | fix_consistency.py:71 | a line with `>` appended ends in `>` once stripped |
| FixConsistency.BracketIdempotent | fix_consistency.py:66-74 | fixing the same malformed error twice equals fixing it once |
| FixConsistency.Unrecognized | fix_consistency.py:10-74 | a message matching none of the three phrases changes nothing |
| FixConsistency.FixNothing | fix_consistency.py:7-8 | with no errors the lines come back unchanged with an empty log |
| FixConsistency.CheckErrorsFixable | fix_consistency.py:10-74 | every error from `consistency.py`'s checker is one this fixer accepts |
| FixConsistency.MalformedFixable | fix_consistency.py:66-74 | the malformed message reaches the bracket branch and neither of the others |
| FixConsistency.NoClosingFixable | fix_consistency.py:11 | the unclosed message reaches the first branch |
| JsonTokens.Tokenize | GUI/json_utils.py:3-19 | every token is a tag `<…>` with no `>` inside, or a non-empty run free of `<` |
| JsonTokens.TokenizeConcat | GUI/json_utils.py:19 | tokenizing the concatenation of a well-cut token list gives back that list |
| JsonTokens.TextRunStops | GUI/json_utils.py:19 | a text token ends just before the next `<` |
| JsonTokens.TokenKinds | GUI/json_utils.py:21-64 | the three predicates are mutually exclusive, and a token is none of them iff it starts with `<`, not `</`, and ends with `/>` |
| JsonTokens.SelfClosingIgnored | GUI/json_utils.py:21-64 | `<x/>` is neither a start tag, an end tag nor text |
| JsonTokens.GetTagName | GUI/json_utils.py:66-79 | a name exists iff the bracket-stripped token holds a word, and then it is a non-empty word without spaces |
| JsonTokens.TagNameOf | GUI/json_utils.py:79 | `<name attrs>` yields `name` |
| JsonTokens.StripBrackets | GUI/json_utils.py:79 | `strip("<>")` leaves no bracket at either end and never lengthens |
| JsonTokens.RStrippedBrackets | GUI/json_utils.py:79 | the right strip is a prefix, and everything it cut off was a bracket |
| JsonTokens.GetTextValue | GUI/json_utils.py:81-94 | the text is empty iff the token is all whitespace |
| JsonParse.Parse | GUI/json_utils.py:165-228 | the loop over the tokens computes the parse specification: the store of dicts, or the `IndexError` Python raises |
| JsonParse.ParseToken | GUI/json_utils.py:199-225 | one token changes the store and the two stacks as the step says, or fails as it fails |
| JsonParse.PushTag | GUI/json_utils.py:200-210 | a start tag allocates an empty dict, records it under its name in the top dict, and pushes it on both stacks |
| JsonParse.StoreText | GUI/json_utils.py:217-225 | a non-blank text is stored for the current tag |
| JsonParse.Store.constructor | GUI/json_utils.py:195 | the store starts with the one empty root dict |
| JsonParse.Store.NewDict | GUI/json_utils.py:203 | `{}` appends one empty dict and returns its identity |
| JsonParse.Store.HandleMultipleSiblings | GUI/json_utils.py:113-132 | the top dict gains the new element: stored directly the first time, appended to the list when one is already there, and otherwise turned into a two-element list |
| JsonParse.Store.ReplaceEmptyDictWithText | GUI/json_utils.py:134-147 | an empty dict under the tag is replaced by the text; anything else is left |
| JsonParse.Store.AssignTextToMostRecentSibling | GUI/json_utils.py:149-162 | when the tag holds a list, its last item becomes the text |
| JsonParse.SiblingAppended | GUI/json_utils.py:113-132 | the siblings under the tag grow by exactly the new element; other keys, and objects other than the top dict and the replaced value, are unchanged |
| JsonParse.TextStored | GUI/json_utils.py:134-162 | after both text helpers, the siblings under the tag are: the last replaced when a list, `[text]` when an empty dict, and unchanged otherwise |
| JsonParse.Put | GUI/json_utils.py:130-132 | a dict assignment sets the value and appends the key only when it is new |
| JsonParse.StepStacks | GUI/json_utils.py:199-225 | a step fails iff a start tag has no name or an end tag or non-blank text arrives with no open tag; otherwise start tags push and end tags pop both stacks whatever their name, and end tags leave the store alone |
| JsonParse.StepValid | GUI/json_utils.py:199-225 | each successful step keeps the store a well-formed tree with every open tag a key of the dict below it |
| JsonParse.Run | GUI/json_utils.py:199-225 | the state after `n` tokens, when there is one, is valid |
| JsonParse.RunErrStays | GUI/json_utils.py:199-225 | once a token raises, the later tokens are not processed |
| JsonParse.ParseSpec | GUI/json_utils.py:165-228 | a successful parse is a well-formed store whose root is a dict |
| JsonParse.DictJson | GUI/json_utils.py:228 | the JSON object of a dict has its keys, in insertion order |
| JsonParse.TextReplacesEmptyDict | GUI/json_utils.py:200-225 | `<name>text</name>` parses to `{name: text}` |
| JsonParse.OpenThenText | GUI/json_utils.py:200-225 | a start tag then a text leaves `{name: text}` at the root with both stacks one deep |
| JsonDumps.DumpsReadsBack | GUI/json_utils.py:231-297 | reading `custom_dumps`'s output of an object, list or string with a JSON reader gives back the same value, compact or indented at any level |
| JsonDumps.ReadDumps | GUI/json_utils.py:231-297 | the same, with any text following the output |
| JsonDumps.DumpsStart | GUI/json_utils.py:261-297 | output starts with `{`, `[` or `"` according to the value |
| JsonDumps.EncloseLayout | GUI/json_utils.py:271-291 | a container is its bracket, the leading layout, the items joined by `,` plus a gap, the trailing layout and the closing bracket |
| JsonDumps.LayoutSpace | GUI/json_utils.py:272-291 | the indentation and line breaks are whitespace only |
| JsonDumps.MemberTexts | GUI/json_utils.py:264-267 | each member is written as `"key": value`, its value one level deeper |
| JsonDumps.ItemTexts | GUI/json_utils.py:282 | each item is written one level deeper |
| JsonDumps.Pad | GUI/json_utils.py:273-274 | the spacing is whitespace |
| Minifying.MinifyXml | GUI/MINIFYING.py:48-62 | the result is the minified document and is never longer than the input |
| Minifying.ParseXml | GUI/MINIFYING.py:1-31 | the character loop computes the element list of the specification |
| Minifying.GenerateMinifiedXml | GUI/MINIFYING.py:34-45 | the result is the elements' contents concatenated in order |
| Minifying.MinifyShorter | GUI/MINIFYING.py:48-62 | minifying never lengthens the document |
| Minifying.TagElementCount | GUI/MINIFYING.py:18-22 | there is one tag element per `>` in the input |
| Minifying.ParsedShaped | GUI/MINIFYING.py:11-29 | every tag element ends in `>` and starts with `<` or is `>` alone, and every text element is non-empty and stripped |
| Minifying.UnterminatedTagDropped | GUI/MINIFYING.py:28-31 | a trailing `<` with no `>` after it is dropped with everything after it |
| Minifying.FlushAdds | GUI/MINIFYING.py:13-14 | flushing the text adds at most its length and no tag |
| Minifying.ScanPrefix | GUI/MINIFYING.py:11-26 | the scanner depends only on the characters read so far |
| Minifying.StrayCloseMovesAhead | GUI/MINIFYING.py:18-22 | a `>` outside a tag is emitted as a tag ahead of the text before it: `a>b` minifies to `>ab` |
| Minifying.FixedTextOnly | GUI/MINIFYING.py:18-26 | with `>` treated as text outside a tag, a document without tags minifies to its stripped text |
| XmlGraph.Graph.constructor | GUI/XMLGRAPH.py:17-18 | the adjacency list starts empty |
| XmlGraph.Graph.AddNode | GUI/XMLGRAPH.py:20-22 | a new node gets an empty list at the end of the key order; a known node changes nothing |
| XmlGraph.Graph.AddEdge | GUI/XMLGRAPH.py:24-29 | both ends become nodes, `to` is appended to `from`'s list, and every other list is unchanged |
| XmlGraph.Graph.GetNeighbors | GUI/XMLGRAPH.py:31-32 | the node's list, or empty for an unknown node |
| XmlGraph.Graph.GetInDegree | GUI/XMLGRAPH.py:34-38 | the number of occurrences of the node across all lists |
| XmlGraph.Graph.GetFollowers | GUI/XMLGRAPH.py:40-45 | the nodes whose list holds the node, in key order |
| XmlGraph.Graph.GetOutDegree | GUI/XMLGRAPH.py:47-48 | the length of the node's list, 0 for an unknown node |
| XmlGraph.Graph.GetDegree | GUI/XMLGRAPH.py:50-51 | in-degree plus out-degree |
| XmlGraph.Graph.GetAllNodes | GUI/XMLGRAPH.py:53-54 | the keys in insertion order, each once |
| XmlGraph.AddNodeIdempotent | GUI/XMLGRAPH.py:20-22 | adding a node twice equals adding it once |
| XmlGraph.EdgeLists | GUI/XMLGRAPH.py:24-29 | an edge changes only the source's list, by appending the target |
| XmlGraph.InDegreeWithNode | GUI/XMLGRAPH.py:20-22 | adding a node changes no in-degree |
| XmlGraph.InDegreeWithEdge | GUI/XMLGRAPH.py:24-38 | adding an edge raises the in-degree of its target by one and of no other node |
| XmlGraph.FollowersExact | GUI/XMLGRAPH.py:40-45 | the followers are exactly the nodes whose list holds the node, each once, in key order; there are no more of them than the in-degree, and none iff the in-degree is 0 |
| XmlGraph.ParseXmlToGraph | GUI/XMLGRAPH.py:57-144 | the graph and tables built line by line equal the line-fold specification, and the method fails iff it raises `NameError` |
| XmlGraph.AddFollowerEdgesLoop | GUI/XMLGRAPH.py:138-139 | one edge from each follower to the user, in list order |
| XmlGraph.FollowerEdgesInDegree | GUI/XMLGRAPH.py:138-139 | the user's in-degree grows by the number of followers, and no other node's changes |
| XmlGraph.FollowerEdgesListed | GUI/XMLGRAPH.py:138-139 | every follower lists the user as a neighbour |
| XmlGraph.LineStepGraph | GUI/XMLGRAPH.py:80-142 | only a user's first `<id>` line (a node) and `</user>` (follower edges) touch the graph |
| XmlGraph.ParsedSound | GUI/XMLGRAPH.py:57-144 | a successful parse yields a well-formed graph; every stored post list, user topic list and post's topic list is non-empty |
| XmlGraph.LineStepSound | GUI/XMLGRAPH.py:80-142 | each line keeps the graph well formed and the tables free of empty lists |
| XmlGraph.RunLinesErrStays | GUI/XMLGRAPH.py:80-142 | once a line raises, the later lines are not processed |
| XmlGraph.UserIdLine | GUI/XMLGRAPH.py:88-90 | the first `<id>` of a user sets the current user and adds it as a node |
| XmlGraph.FollowerIdLine | GUI/XMLGRAPH.py:130-132 | a later `<id>` line appends a follower and leaves the graph alone |
| XmlGraph.UserCloseLine | GUI/XMLGRAPH.py:135-142 | `</user>` resets the current user and raises its in-degree by its follower count |
| Compression.BytePairEncoding | GUI/COMPRESSION.py:6-44 | the loop computes the encoding specification: at most ten merge rounds with the same stopping tests |
| Compression.GetPairs | GUI/COMPRESSION.py:16-20 | the counter is the multiset of adjacent pairs; "unique" holds iff the data is non-empty and no pair repeats; the number of distinct pairs is at most the number of pairs |
| Compression.Leader | GUI/COMPRESSION.py:28 | the chosen pair is one of the pairs |
| Compression.LeaderFirstMax | GUI/COMPRESSION.py:28 | `max(pairs, key=pairs.get)` has the highest count, and every pair first seen before it has a strictly lower one |
| Compression.KeyOf | GUI/COMPRESSION.py:34 | the k-th new symbol is `chr(256 + k)` |
| Compression.ReplaceShorter | GUI/COMPRESSION.py:36 | replacing a pair by one symbol never lengthens the data |
| Compression.ReplaceChars | GUI/COMPRESSION.py:36 | the replaced data holds only the new symbol and characters it already held |
| Compression.RoundStepMerges | GUI/COMPRESSION.py:34-35 | a round that continues records exactly one new entry under the next key |
| Compression.RoundStepShape | GUI/COMPRESSION.py:22-42 | a round keeps the keys in order, only extends the mapping, and never lengthens the data |
| Compression.BpeShape | GUI/COMPRESSION.py:6-44 | the encoding is never longer than the input, has at most ten entries, and entry `k` has key `chr(256 + k)` |
| Compression.NoRepeatNoMerge | GUI/COMPRESSION.py:25-26 | data whose pairs are all distinct is returned unchanged with an empty mapping |
| Compression.RareNoMerge | GUI/COMPRESSION.py:31-32 | when every pair occurs fewer times than 1% of the length, nothing is merged |
| Compression.FirstMergeKept | GUI/COMPRESSION.py:22-42 | when some pair repeats and reaches the 1% threshold, the first entry maps `chr(256)` to the most frequent pair |
| Decompression.ReverseBpeLoop | GUI/DECOMPRESSION.py:10-30 | the loop replaces symbols by their pairs, most recent entry first; an empty mapping leaves the data unchanged |
| Decompression.DecompressXmlContent | GUI/DECOMPRESSION.py:32-71 | a missing delimiter or an extra one is the source's error message; an undecodable mapping is reported with the decompression prefix; otherwise the result is the reversed encoding of the stripped data part |
| Decompression.SplitMissing | GUI/DECOMPRESSION.py:57-58 | input without the delimiter is refused with the missing-delimiter message |
| Decompression.SplitOnce | GUI/DECOMPRESSION.py:60-62 | one delimiter splits the input into the two stripped parts |
| Decompression.SplitTwice | GUI/DECOMPRESSION.py:60 | two delimiters give the two-value unpacking error |
| Decompression.ReplaceInverse | GUI/DECOMPRESSION.py:29 | replacing a fresh symbol by its pair undoes merging that pair into the symbol |
| Decompression.ReverseBpeAppend | GUI/DECOMPRESSION.py:28-29 | reversing with one more entry first undoes that entry, then the rest |
| Decompression.MergeUndoes | GUI/COMPRESSION.py:34-36 | one merge keeps the invariant that reversing the mapping gives back the original |
| Decompression.RoundStepUndoes | GUI/COMPRESSION.py:22-42 | every round keeps that invariant |
| Decompression.RoundTrip | GUI/DECOMPRESSION.py:28-30 | decompressing the encoding gives back the input, whenever the input has no character in `chr(256)`..`chr(265)` |

## Left out

- I/O: reading and writing files, the command line (`parse_arguments`, `main` and the CLI wiring),
  the GUI, the `main_*` programs and the rest of the repository are not part of this model.
  `splitlines` and `readlines` are not modelled; the line-based functions take the list of lines.
- `visualize_graph` (networkx and matplotlib drawing) is left out.
- Python exceptions become `Result.Err` where the core catches or raises them on purpose:
  - the `NameError` of `parse_xml_to_graph`;
  - the `IndexError`s of `parse`;
  - the messages of `decompress_xml_content`.
- The checkers' specification functions are total. The methods require every line to be
  "scannable": each `<` that is scanned has a `>` after it in the GUI checker, and every tag content
  has a first word. Where Python would slice with `end == -1` or index an empty `split()`, the
  specification returns a value that is not Python's result.
- The fixers require every error line to be at least 1, and at most the number of lines where the
  branch indexes the list. Python's negative-index wrap-around for line 0 is not modelled. Both
  checkers only ever report lines in that range (`CheckErrorsFixable`).
- The fixers also require each message to hold what its branch splits on: a `<` in a "has no
  closing tag" message, and a `</` in an "Unexpected closing tag" message. Python raises
  `IndexError` otherwise, and that failure is not modelled. Messages of neither kind leave the lines
  alone, as in the source.
- JsonDumps.DumpsReadsBack: requires strings without `"`, because `custom_dumps` writes strings
  without escaping. A string with a quote is not read back as itself.
- `custom_dumps` on numbers, booleans, `None` and unsupported types (the `TypeError`) is left out.
  `parse` only ever produces dicts, lists and strings.
- `json.loads` of the mapping in `decompress_xml_content` is a parameter (`loads`). `json.dumps` and
  the output format of `compress_xml_content` are not modelled.
- `sys.getsizeof(mapping)` is the parameter `sizeOf`, a function of the number of entries.
- The 1% tests are compared in integers: `count < n * 1 / 100` becomes `100 * count < n`, and the
  size test is multiplied by 100 the same way. Both are exact, because `/` there is true division.
- `step_count` is never read by the source and is not modelled.
- Decompression.SplitOnce and Decompression.SplitTwice require the first part not to end with a
  character of the delimiter, so that the first occurrence starts right after it.
- Decompression.RoundTrip requires the input to be free of the ten symbols the encoder may introduce,
  because such a character would be expanded on the way back. The source promises nothing for such
  input either.
- `minify_xml`'s `except` clause only re-raises with a prefix. The model raises nothing, so it is
  left out.
- JsonParse: a lemma over several tokens about the names on the tag stack is not stated. `StepStacks`
  states the push and the pop per token.
- XmlGraph.ParseXmlToGraph: the lists are stored by reference in the source and copied in the
  model, so aliasing is not captured. `post_topics` holds `curr_topics` itself, so a later
  `</topic>` before the next `<post>` would change an entry already stored. `posts[user]` and
  `user_topics[user]` hold the lists `current_posts` and `current_topics`, which are bound afresh
  only at `<user>`. A `</body>` or `</topic>` after `</user>` and before the next `<user>` would
  extend the stored entry, and a second `</user>` would store the same list under a second key.
- The `Graph` class stores its adjacency dict as an insertion-ordered key list plus a map;
  `get_all_nodes` returns the keys in insertion order, as a Python dict does.

## Findings

| source | as written | input that shows it | evidently intended | confidence | as-written member | corrected member |
|---|---|---|---|---|---|---|
| GUI/MINIFYING.py:18-22 | a `>` closes a tag even when no tag is open, and the tag element `>` is emitted before the text read so far, which is flushed only at the next `<` or the end | `a>b` minifies to `>ab` | a `>` outside a tag is kept as text, so that `a>b` minifies to `a>b` | not executed | Minifying.StrayCloseMovesAhead | Minifying.FixedTextOnly |
