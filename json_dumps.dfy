/** `custom_dumps` of GUI/json_utils.py, over the values `parse` produces: dicts, lists and
    strings. A small JSON reader stands beside it as its partner: what `custom_dumps` writes,
    compact or indented, reads back as the value written, as long as no string holds a `"`. */
module JsonDumps {
  import opened Common
  import opened PyStr

  /** A JSON value: an object (its members in order), an array or a string. */
  datatype Json = Object(members: seq<(string, Json)>) | Array(items: seq<Json>) | Str(text: string)

  /** `" " * n`, which is empty for `n <= 0`. */
  function Pad(n: int): (r: string)
    ensures AllJsonSpace(r)
  {
    if n <= 0 then [] else Spaces(n)
  }

  /** `f'"{s}"'`: the string between double quotes, nothing escaped. */
  function Quote(s: string): string
  {
    "\"" + s + "\""
  }

  /** `custom_dumps(obj, indent, level)`: a dict as `{key: value, ...}`, a list as `[item, ...]`,
      a string quoted; with an indent, every item on its own line indented by
      `(level + 1) * indent` spaces and the closing bracket by `level * indent`. */
  function Dumps(x: Json, indent: Option<int>, level: int): string
    decreases x, 1
  {
    match x
    case Str(s) => Quote(s)
    case Array(xs) => Enclose('[', ']', ItemTexts(x, xs, indent, level), indent, level)
    case Object(ms) => Enclose('{', '}', MemberTexts(x, ms, indent, level), indent, level)
  }

  /** The serialised items of a list, each one level deeper. */
  function ItemTexts(ghost parent: Json, xs: seq<Json>, indent: Option<int>, level: int): (r: seq<string>)
    requires forall i :: 0 <= i < |xs| ==> xs[i] < parent
    ensures |r| == |xs| && forall i :: 0 <= i < |xs| ==> r[i] == Dumps(xs[i], indent, level + 1)
    decreases parent, 0, |xs|
  {
    if xs == [] then [] else ItemTexts(parent, xs[..|xs| - 1], indent, level) + [Dumps(xs[|xs| - 1], indent, level + 1)]
  }

  /** The serialised `key: value` pairs of a dict, each value one level deeper. */
  function MemberTexts(ghost parent: Json, ms: seq<(string, Json)>, indent: Option<int>, level: int): (r: seq<string>)
    requires forall i :: 0 <= i < |ms| ==> ms[i].1 < parent
    ensures |r| == |ms|
    ensures forall i :: 0 <= i < |ms| ==> r[i] == Quote(ms[i].0) + ": " + Dumps(ms[i].1, indent, level + 1)
    decreases parent, 0, |ms|
  {
    if ms == [] then []
    else
      var m := ms[|ms| - 1];
      MemberTexts(parent, ms[..|ms| - 1], indent, level) + [Quote(m.0) + ": " + Dumps(m.1, indent, level + 1)]
  }

  /** The brackets around the items: `open + ", ".join(items) + close` without an indent; with
      one, a line break and the inner indentation before each item and a line break and the outer
      indentation before the closing bracket. */
  function Enclose(open: char, close: char, items: seq<string>, indent: Option<int>, level: int): string
  {
    match indent
    case None => [open] + Join(", ", items) + [close]
    case Some(n) =>
      var spacing, innerSpacing := Pad(level * n), Pad((level + 1) * n);
      [open] + "\n" + innerSpacing + Join(",\n" + innerSpacing, items) + "\n" + spacing + [close]
  }

  // ---------------------------------------------------------------------------------------------
  // A reader for the same values

  /** The whitespace JSON allows between tokens. */
  predicate IsJsonSpace(c: char)
  {
    c == ' ' || c == '\t' || c == '\n' || c == '\r'
  }

  predicate AllJsonSpace(s: string)
  {
    forall i :: 0 <= i < |s| ==> IsJsonSpace(s[i])
  }

  /** `s` without its leading whitespace. */
  function SkipSpace(s: string): (r: string)
    ensures |r| <= |s|
  {
    if s != [] && IsJsonSpace(s[0]) then SkipSpace(s[1..]) else s
  }

  /** A string token after its opening quote: the text up to the next `"` and what follows the
      closing quote. */
  function ReadString(s: string): (r: Option<(string, string)>)
    ensures r.Some? ==> |r.value.1| < |s|
  {
    var j := Find(s, '"', 0);
    if j == -1 then None else Some((s[..j], s[j + 1..]))
  }

  /** One value at the start of `s` (after whitespace), and what follows it. */
  function ReadValue(s: string): (r: Option<(Json, string)>)
    ensures r.Some? ==> |r.value.1| < |s|
    decreases |s|, 1
  {
    var t := SkipSpace(s);
    if t == [] then None
    else if t[0] == '"' then
      var str := ReadString(t[1..]);
      if str.None? then None else Some((Str(str.value.0), str.value.1))
    else if t[0] == '[' then
      var u := SkipSpace(t[1..]);
      if u != [] && u[0] == ']' then Some((Array([]), u[1..]))
      else
        var items := ReadItems(t[1..]);
        if items.None? then None else Some((Array(items.value.0), items.value.1))
    else if t[0] == '{' then
      var u := SkipSpace(t[1..]);
      if u != [] && u[0] == '}' then Some((Object([]), u[1..]))
      else
        var members := ReadMembers(t[1..]);
        if members.None? then None else Some((Object(members.value.0), members.value.1))
    else None
  }

  /** The items of an array after its `[`, up to and including its `]`. */
  function ReadItems(s: string): (r: Option<(seq<Json>, string)>)
    ensures r.Some? ==> |r.value.1| < |s|
    decreases |s|, 2
  {
    var v := ReadValue(s);
    if v.None? then None
    else
      var t := SkipSpace(v.value.1);
      if t != [] && t[0] == ']' then Some(([v.value.0], t[1..]))
      else if t != [] && t[0] == ',' then
        var more := ReadItems(t[1..]);
        if more.None? then None else Some(([v.value.0] + more.value.0, more.value.1))
      else None
  }

  /** One `"key": value` member at the start of `s` (after whitespace), and what follows it. */
  function ReadMember(s: string): (r: Option<((string, Json), string)>)
    ensures r.Some? ==> |r.value.1| < |s|
    decreases |s|, 2
  {
    var t := SkipSpace(s);
    if t == [] || t[0] != '"' then None
    else
      var key := ReadString(t[1..]);
      if key.None? then None
      else
        var u := SkipSpace(key.value.1);
        if u == [] || u[0] != ':' then None
        else
          var v := ReadValue(u[1..]);
          if v.None? then None else Some(((key.value.0, v.value.0), v.value.1))
  }

  /** The members of an object after its `{`, up to and including its `}`. */
  function ReadMembers(s: string): (r: Option<(seq<(string, Json)>, string)>)
    ensures r.Some? ==> |r.value.1| < |s|
    decreases |s|, 3
  {
    var m := ReadMember(s);
    if m.None? then None
    else
      var t := SkipSpace(m.value.1);
      if t != [] && t[0] == '}' then Some(([m.value.0], t[1..]))
      else if t != [] && t[0] == ',' then
        var more := ReadMembers(t[1..]);
        if more.None? then None else Some(([m.value.0] + more.value.0, more.value.1))
      else None
  }

  /** No string of `x`, key or value, holds a `"`. */
  predicate NoQuotes(x: Json)
    decreases x
  {
    match x
    case Str(s) => '"' !in s
    case Array(xs) => forall i :: 0 <= i < |xs| ==> NoQuotes(xs[i])
    case Object(ms) => forall i :: 0 <= i < |ms| ==> '"' !in ms[i].0 && NoQuotes(ms[i].1)
  }

  // ---------------------------------------------------------------------------------------------
  // What `custom_dumps` writes reads back

  /** The whitespace after an opening bracket. */
  function Lead(indent: Option<int>, level: int): string
  {
    match indent
    case None => ""
    case Some(n) => "\n" + Pad((level + 1) * n)
  }

  /** The whitespace after each comma. */
  function Gap(indent: Option<int>, level: int): string
  {
    match indent
    case None => " "
    case Some(n) => "\n" + Pad((level + 1) * n)
  }

  /** The whitespace before a closing bracket. */
  function Trail(indent: Option<int>, level: int): string
  {
    match indent
    case None => ""
    case Some(n) => "\n" + Pad(level * n)
  }

  /** Whatever the layout, the brackets enclose the items joined by a comma and whitespace, with
      whitespace only after the opening and before the closing bracket. */
  lemma EncloseLayout(open: char, close: char, items: seq<string>, indent: Option<int>, level: int)
    ensures Enclose(open, close, items, indent, level)
      == [open] + Lead(indent, level) + Join("," + Gap(indent, level), items) + Trail(indent, level) + [close]
  {
    match indent
    case None =>
      assert "," + Gap(indent, level) == ", ";
    case Some(n) =>
      assert "," + Gap(indent, level) == ",\n" + Pad((level + 1) * n);
  }

  /** The layout adds only whitespace besides the brackets and commas. */
  lemma LayoutSpace(indent: Option<int>, level: int)
    ensures AllJsonSpace(Lead(indent, level)) && AllJsonSpace(Gap(indent, level)) && AllJsonSpace(Trail(indent, level))
  {
  }

  /** Leading whitespace does not change where the next token starts. */
  lemma {:induction false} SkipSpaceAfter(w: string, t: string)
    requires AllJsonSpace(w)
    ensures SkipSpace(w + t) == SkipSpace(t)
    decreases |w|
  {
    if w != [] {
      assert IsJsonSpace((w + t)[0]) && (w + t)[1..] == w[1..] + t;
      assert AllJsonSpace(w[1..]) by {
        forall i | 0 <= i < |w[1..]| ensures IsJsonSpace(w[1..][i]) {
          assert w[1..][i] == w[i + 1];
        }
      }
      SkipSpaceAfter(w[1..], t);
    } else {
      assert w + t == t;
    }
  }

  /** A value read after whitespace is the value read without it. */
  lemma ReadValueAfter(w: string, t: string)
    requires AllJsonSpace(w)
    ensures ReadValue(w + t) == ReadValue(t)
  {
    SkipSpaceAfter(w, t);
  }

  /** Every serialised value starts with `"`, `[` or `{`, as its kind says. */
  lemma DumpsStart(x: Json, indent: Option<int>, level: int)
    ensures var d := Dumps(x, indent, level);
      |d| > 0 && d[0] == (match x case Str(_) => '"' case Array(_) => '[' case Object(_) => '{')
  {
  }

  /** A token that starts with a value's first character is not skipped as whitespace. */
  lemma NoSkip(t: string)
    requires |t| > 0 && !IsJsonSpace(t[0])
    ensures SkipSpace(t) == t
  {
  }

  /** A string token's text ends at the first `"`. */
  lemma FindQuote(text: string, rest: string)
    requires '"' !in text
    ensures ReadString(text + "\"" + rest) == Some((text, rest))
  {
    var s := text + "\"" + rest;
    FindFirst(s, '"', 0, |text|);
    assert s[..|text|] == text && s[|text| + 1..] == rest;
  }

  /** The first index `>= from` holding `c`. */
  lemma FindFirst(s: string, c: char, from: nat, j: nat)
    requires from <= j < |s| && s[j] == c && forall i :: from <= i < j ==> s[i] != c
    ensures Find(s, c, from) == j
  {
  }

  lemma ReadQuoted(text: string, rest: string)
    requires '"' !in text
    ensures ReadValue(Quote(text) + rest) == Some((Str(text), rest))
  {
    var s := Quote(text) + rest;
    NoSkip(s);
    assert s[1..] == text + "\"" + rest;
    FindQuote(text, rest);
  }

  /** `[`, whitespace only, `]`: the empty array. */
  lemma ReadEmptyArray(lead: string, trail: string, rest: string)
    requires AllJsonSpace(lead) && AllJsonSpace(trail)
    ensures ReadValue("[" + (lead + (trail + ("]" + rest)))) == Some((Array([]), rest))
  {
    var s := "[" + (lead + (trail + ("]" + rest)));
    NoSkip(s);
    assert s[1..] == lead + (trail + ("]" + rest));
    SkipSpaceAfter(lead, trail + ("]" + rest));
    SkipSpaceAfter(trail, "]" + rest);
    NoSkip("]" + rest);
    assert ("]" + rest)[1..] == rest;
  }

  /** `[` and a body whose first token is not `]`: the array of the items read. */
  lemma ReadArray(body: string, xs: seq<Json>, rest: string)
    requires ReadItems(body) == Some((xs, rest))
    requires var u := SkipSpace(body); u != [] && u[0] != ']'
    ensures ReadValue("[" + body) == Some((Array(xs), rest))
  {
    var s := "[" + body;
    NoSkip(s);
    assert s[1..] == body;
  }

  /** `{`, whitespace only, `}`: the empty object. */
  lemma ReadEmptyObject(lead: string, trail: string, rest: string)
    requires AllJsonSpace(lead) && AllJsonSpace(trail)
    ensures ReadValue("{" + (lead + (trail + ("}" + rest)))) == Some((Object([]), rest))
  {
    var s := "{" + (lead + (trail + ("}" + rest)));
    NoSkip(s);
    assert s[1..] == lead + (trail + ("}" + rest));
    SkipSpaceAfter(lead, trail + ("}" + rest));
    SkipSpaceAfter(trail, "}" + rest);
    NoSkip("}" + rest);
    assert ("}" + rest)[1..] == rest;
  }

  /** `{` and a body whose first token is not `}`: the object of the members read. */
  lemma ReadObject(body: string, ms: seq<(string, Json)>, rest: string)
    requires ReadMembers(body) == Some((ms, rest))
    requires var u := SkipSpace(body); u != [] && u[0] != '}'
    ensures ReadValue("{" + body) == Some((Object(ms), rest))
  {
    var s := "{" + body;
    NoSkip(s);
    assert s[1..] == body;
  }

  /** A last item: the value, whitespace, then `]`. */
  lemma ReadLastItem(s: string, x: Json, trail: string, rest: string)
    requires AllJsonSpace(trail) && ReadValue(s) == Some((x, trail + ("]" + rest)))
    ensures ReadItems(s) == Some(([x], rest))
  {
    var after := trail + ("]" + rest);
    SkipSpaceAfter(trail, "]" + rest);
    NoSkip("]" + rest);
    var t := SkipSpace(after);
    assert t == "]" + rest;
    assert t != [] && t[0] == ']';
    assert t[1..] == rest;
  }

  /** An item followed by a comma and more items. */
  lemma ReadMoreItems(s: string, x: Json, more: string, xs: seq<Json>, rest: string)
    requires ReadValue(s) == Some((x, "," + more)) && ReadItems(more) == Some((xs, rest))
    ensures ReadItems(s) == Some(([x] + xs, rest))
  {
    NoSkip("," + more);
    assert ("," + more)[1..] == more;
  }

  /** A last member: the member, whitespace, then `}`. */
  lemma ReadLastMember(s: string, m: (string, Json), trail: string, rest: string)
    requires AllJsonSpace(trail) && ReadMember(s) == Some((m, trail + ("}" + rest)))
    ensures ReadMembers(s) == Some(([m], rest))
  {
    SkipSpaceAfter(trail, "}" + rest);
    NoSkip("}" + rest);
    assert ("}" + rest)[1..] == rest;
  }

  /** A member followed by a comma and more members. */
  lemma ReadMoreMembers(s: string, m: (string, Json), more: string, ms: seq<(string, Json)>, rest: string)
    requires ReadMember(s) == Some((m, "," + more)) && ReadMembers(more) == Some((ms, rest))
    ensures ReadMembers(s) == Some(([m] + ms, rest))
  {
    NoSkip("," + more);
    assert ("," + more)[1..] == more;
  }

  /** `"key"`, whitespace, `:`, then a value. */
  lemma ReadKeyed(key: string, afterKey: string, x: Json, rest: string)
    requires '"' !in key
    requires var u := SkipSpace(afterKey); u != [] && u[0] == ':' && ReadValue(u[1..]) == Some((x, rest))
    ensures ReadMember(Quote(key) + afterKey) == Some(((key, x), rest))
  {
    var q := Quote(key);
    var s := q + afterKey;
    NoSkip(s);
    assert q == "\"" + (key + "\"");
    DropFront("\"", key + "\"", 1);
    DropFront(q, afterKey, 1);
    FindQuote(key, afterKey);
  }

  /** Dropping a prefix of the left operand of a concatenation. */
  lemma DropFront(a: string, b: string, k: nat)
    requires k <= |a|
    ensures (a + b)[k..] == a[k..] + b
  {
  }

  /** The first character of a join is that of its first part. */
  lemma JoinHead(sep: string, parts: seq<string>)
    requires |parts| > 0 && |parts[0]| > 0
    ensures var j := Join(sep, parts); |j| > 0 && j[0] == parts[0][0]
  {
    if |parts| >= 2 {
      JoinFront(sep, parts);
    }
  }

  /** The partner of `custom_dumps`: for values whose strings hold no `"`, the reader reads back
      exactly the value written, in either layout, and stops right after it. */
  lemma {:induction false} ReadDumps(x: Json, indent: Option<int>, level: int, rest: string)
    requires NoQuotes(x)
    ensures ReadValue(Dumps(x, indent, level) + rest) == Some((x, rest))
    decreases x
  {
    LayoutSpace(indent, level);
    match x
    case Str(text) =>
      ReadQuoted(text, rest);
    case Array(xs) =>
      var texts := ItemTexts(x, xs, indent, level);
      if xs == [] {
        ReadEnclosedEmpty('[', ']', indent, level, rest);
      } else {
        forall i, tail | 0 <= i < |xs| ensures ReadValue(texts[i] + tail) == Some((xs[i], tail)) {
          ReadDumps(xs[i], indent, level + 1, tail);
        }
        ReadItemsBack(xs, texts, Gap(indent, level), Lead(indent, level), Trail(indent, level), rest);
        DumpsStart(xs[0], indent, level + 1);
        ReadEnclosedItems(texts, xs, indent, level, rest);
      }
    case Object(ms) =>
      var texts := MemberTexts(x, ms, indent, level);
      if ms == [] {
        ReadEnclosedEmpty('{', '}', indent, level, rest);
      } else {
        forall i, w, tail | 0 <= i < |ms| && AllJsonSpace(w)
          ensures ReadMember(w + (texts[i] + tail)) == Some((ms[i], tail))
        {
          ReadDumps(ms[i].1, indent, level + 1, tail);
          ReadWrittenMember(ms[i].0, Dumps(ms[i].1, indent, level + 1), ms[i].1, w, tail);
        }
        ReadMembersBack(ms, texts, Gap(indent, level), Lead(indent, level), Trail(indent, level), rest);
        ReadEnclosedMembers(texts, ms, indent, level, rest);
      }
  }

  /** Empty brackets, in either layout, read back as the empty array or object. */
  lemma ReadEnclosedEmpty(open: char, close: char, indent: Option<int>, level: int, rest: string)
    requires (open, close) == ('[', ']') || (open, close) == ('{', '}')
    ensures ReadValue(Enclose(open, close, [], indent, level) + rest)
      == Some((if open == '[' then Array([]) else Object([]), rest))
  {
    var lead, trail := Lead(indent, level), Trail(indent, level);
    EncloseRest(open, close, [], indent, level, rest);
    assert Join("," + Gap(indent, level), []) == [];
    assert [] + (trail + ([close] + rest)) == trail + ([close] + rest);
    if open == '[' {
      ReadEmptyArray(lead, trail, rest);
    } else {
      ReadEmptyObject(lead, trail, rest);
    }
  }

  /** `Enclose` followed by more text, associated to the right. */
  lemma EncloseRest(open: char, close: char, items: seq<string>, indent: Option<int>, level: int, rest: string)
    ensures Enclose(open, close, items, indent, level) + rest
      == [open] + (Lead(indent, level) + (Join("," + Gap(indent, level), items) + (Trail(indent, level) + ([close] + rest))))
    ensures AllJsonSpace(Lead(indent, level)) && AllJsonSpace(Gap(indent, level)) && AllJsonSpace(Trail(indent, level))
  {
    EncloseLayout(open, close, items, indent, level);
    LayoutSpace(indent, level);
    Assoc5([open], Lead(indent, level), Join("," + Gap(indent, level), items), Trail(indent, level), [close], rest);
  }

  lemma Assoc5(a: string, b: string, c: string, d: string, e: string, f: string)
    ensures a + b + c + d + e + f == a + (b + (c + (d + (e + f))))
  {
  }

  /** Brackets around item texts whose items read back read back as the array. */
  lemma ReadEnclosedItems(texts: seq<string>, xs: seq<Json>, indent: Option<int>, level: int, rest: string)
    requires |texts| > 0 && |texts[0]| > 0 && texts[0][0] in "\"[{"
    requires ReadItems(Lead(indent, level) + (Join("," + Gap(indent, level), texts) + (Trail(indent, level) + ("]" + rest))))
      == Some((xs, rest))
    ensures ReadValue(Enclose('[', ']', texts, indent, level) + rest) == Some((Array(xs), rest))
  {
    var lead, joined, after := Lead(indent, level), Join("," + Gap(indent, level), texts), Trail(indent, level) + ("]" + rest);
    EncloseRest('[', ']', texts, indent, level, rest);
    var body := lead + (joined + after);
    assert SkipSpace(body) == joined + after by {
      SkipSpaceAfter(lead, joined + after);
      JoinHead("," + Gap(indent, level), texts);
      NoSkip(joined + after);
    }
    ReadArray(body, xs, rest);
  }

  /** Braces around member texts whose members read back read back as the object. */
  lemma ReadEnclosedMembers(texts: seq<string>, ms: seq<(string, Json)>, indent: Option<int>, level: int, rest: string)
    requires |texts| > 0 && |texts[0]| > 0 && texts[0][0] == '"'
    requires ReadMembers(Lead(indent, level) + (Join("," + Gap(indent, level), texts) + (Trail(indent, level) + ("}" + rest))))
      == Some((ms, rest))
    ensures ReadValue(Enclose('{', '}', texts, indent, level) + rest) == Some((Object(ms), rest))
  {
    var lead, joined, after := Lead(indent, level), Join("," + Gap(indent, level), texts), Trail(indent, level) + ("}" + rest);
    EncloseRest('{', '}', texts, indent, level, rest);
    var body := lead + (joined + after);
    assert SkipSpace(body) == joined + after by {
      SkipSpaceAfter(lead, joined + after);
      JoinHead("," + Gap(indent, level), texts);
      NoSkip(joined + after);
    }
    ReadObject(body, ms, rest);
  }

  /** Item texts that each read back, joined by a comma and whitespace `gap`, after whitespace
      `lead` and up to whitespace `trail` and the closing bracket, read back as the items. */
  lemma {:induction false} ReadItemsBack(xs: seq<Json>, texts: seq<string>, gap: string, lead: string, trail: string,
                                         rest: string)
    requires |xs| > 0 && |texts| == |xs|
    requires forall i, tail :: 0 <= i < |xs| ==> ReadValue(texts[i] + tail) == Some((xs[i], tail))
    requires AllJsonSpace(lead) && AllJsonSpace(gap) && AllJsonSpace(trail)
    ensures ReadItems(lead + (Join("," + gap, texts) + (trail + ("]" + rest)))) == Some((xs, rest))
    decreases |xs|
  {
    var after := trail + ("]" + rest);
    if |xs| == 1 {
      assert ReadItems(lead + (Join("," + gap, texts) + after)) == Some(([xs[0]], rest)) by {
        ReadOneItem(lead, texts, xs[0], gap, trail, rest);
      }
      assert [xs[0]] == xs;
    } else {
      var more := gap + (Join("," + gap, texts[1..]) + after);
      assert ReadItems(more) == Some((xs[1..], rest)) by {
        forall i, tail | 0 <= i < |xs[1..]| ensures ReadValue(texts[1..][i] + tail) == Some((xs[1..][i], tail)) {
          assert texts[1..][i] == texts[i + 1] && xs[1..][i] == xs[i + 1];
        }
        ReadItemsBack(xs[1..], texts[1..], gap, gap, trail, rest);
      }
      assert ReadItems(lead + (Join("," + gap, texts) + after)) == Some(([xs[0]] + xs[1..], rest)) by {
        ReadNextItem(lead, texts, xs[0], gap, xs[1..], after, rest);
      }
      assert [xs[0]] + xs[1..] == xs;
    }
  }

  /** A single item text that reads back, between whitespace and the closing bracket. */
  lemma ReadOneItem(lead: string, texts: seq<string>, x: Json, gap: string, trail: string, rest: string)
    requires |texts| == 1 && AllJsonSpace(lead) && AllJsonSpace(trail)
    requires ReadValue(texts[0] + (trail + ("]" + rest))) == Some((x, trail + ("]" + rest)))
    ensures ReadItems(lead + (Join("," + gap, texts) + (trail + ("]" + rest)))) == Some(([x], rest))
  {
    var s := lead + (Join("," + gap, texts) + (trail + ("]" + rest)));
    ReadValueAfter(lead, texts[0] + (trail + ("]" + rest)));
    ReadLastItem(s, x, trail, rest);
  }

  /** Joining parts at least two long, seen as the first part, a comma and the rest. */
  lemma JoinRest(texts: seq<string>, gap: string, after: string)
    requires |texts| >= 2
    ensures Join("," + gap, texts) + after == texts[0] + ("," + (gap + (Join("," + gap, texts[1..]) + after)))
  {
    JoinFront("," + gap, texts);
    Assoc5(texts[0], ",", gap, Join("," + gap, texts[1..]), after, []);
    assert after + [] == after;
    assert texts[0] + ("," + gap) == texts[0] + "," + gap;
  }

  /** An item text that reads back, a comma, then more items that read back. */
  lemma ReadNextItem(lead: string, texts: seq<string>, x: Json, gap: string, xs: seq<Json>, after: string, rest: string)
    requires |texts| >= 2 && AllJsonSpace(lead)
    requires var more := gap + (Join("," + gap, texts[1..]) + after);
      ReadValue(texts[0] + ("," + more)) == Some((x, "," + more)) && ReadItems(more) == Some((xs, rest))
    ensures ReadItems(lead + (Join("," + gap, texts) + after)) == Some(([x] + xs, rest))
  {
    var more := gap + (Join("," + gap, texts[1..]) + after);
    JoinRest(texts, gap, after);
    ReadValueAfter(lead, texts[0] + ("," + more));
    ReadMoreItems(lead + (Join("," + gap, texts) + after), x, more, xs, rest);
  }

  /** Member texts that each read back, joined by a comma and whitespace `gap`, after whitespace
      `lead` and up to whitespace `trail` and the closing brace, read back as the members. */
  lemma {:induction false} ReadMembersBack(ms: seq<(string, Json)>, texts: seq<string>, gap: string, lead: string,
                                           trail: string, rest: string)
    requires |ms| > 0 && |texts| == |ms|
    requires forall i, w, tail :: 0 <= i < |ms| && AllJsonSpace(w) ==> ReadMember(w + (texts[i] + tail)) == Some((ms[i], tail))
    requires AllJsonSpace(lead) && AllJsonSpace(gap) && AllJsonSpace(trail)
    ensures ReadMembers(lead + (Join("," + gap, texts) + (trail + ("}" + rest)))) == Some((ms, rest))
    decreases |ms|
  {
    var after := trail + ("}" + rest);
    if |ms| == 1 {
      assert ReadMembers(lead + (Join("," + gap, texts) + after)) == Some(([ms[0]], rest)) by {
        ReadOneMember(lead, texts, ms[0], gap, trail, rest);
      }
      assert [ms[0]] == ms;
    } else {
      var more := gap + (Join("," + gap, texts[1..]) + after);
      assert ReadMembers(more) == Some((ms[1..], rest)) by {
        forall i, w, tail | 0 <= i < |ms[1..]| && AllJsonSpace(w)
          ensures ReadMember(w + (texts[1..][i] + tail)) == Some((ms[1..][i], tail))
        {
          assert texts[1..][i] == texts[i + 1] && ms[1..][i] == ms[i + 1];
        }
        ReadMembersBack(ms[1..], texts[1..], gap, gap, trail, rest);
      }
      assert ReadMembers(lead + (Join("," + gap, texts) + after)) == Some(([ms[0]] + ms[1..], rest)) by {
        ReadNextMember(lead, texts, ms[0], gap, ms[1..], after, rest);
      }
      assert [ms[0]] + ms[1..] == ms;
    }
  }

  /** A single member text that reads back, between whitespace and the closing brace. */
  lemma ReadOneMember(lead: string, texts: seq<string>, m: (string, Json), gap: string, trail: string, rest: string)
    requires |texts| == 1
    requires ReadMember(lead + (texts[0] + (trail + ("}" + rest)))) == Some((m, trail + ("}" + rest)))
    requires AllJsonSpace(trail)
    ensures ReadMembers(lead + (Join("," + gap, texts) + (trail + ("}" + rest)))) == Some(([m], rest))
  {
    ReadLastMember(lead + (texts[0] + (trail + ("}" + rest))), m, trail, rest);
  }

  /** A member text that reads back, a comma, then more members that read back. */
  lemma ReadNextMember(lead: string, texts: seq<string>, m: (string, Json), gap: string, ms: seq<(string, Json)>,
                       after: string, rest: string)
    requires |texts| >= 2
    requires var more := gap + (Join("," + gap, texts[1..]) + after);
      ReadMember(lead + (texts[0] + ("," + more))) == Some((m, "," + more)) && ReadMembers(more) == Some((ms, rest))
    ensures ReadMembers(lead + (Join("," + gap, texts) + after)) == Some(([m] + ms, rest))
  {
    var more := gap + (Join("," + gap, texts[1..]) + after);
    JoinRest(texts, gap, after);
    ReadMoreMembers(lead + (Join("," + gap, texts) + after), m, more, ms, rest);
  }

  /** `"key": ` and then the text of a value that reads back, after whitespace `lead`. */
  lemma ReadWrittenMember(key: string, d: string, x: Json, lead: string, tail: string)
    requires '"' !in key && AllJsonSpace(lead) && ReadValue(d + tail) == Some((x, tail))
    ensures ReadMember(lead + (Quote(key) + ": " + d + tail)) == Some(((key, x), tail))
  {
    var q := Quote(key);
    var afterKey := ": " + d + tail;
    assert ReadValue(afterKey[1..]) == Some((x, tail)) by {
      assert afterKey[1..] == " " + (d + tail);
      ReadValueAfter(" ", d + tail);
    }
    assert ReadMember(q + afterKey) == Some(((key, x), tail)) by {
      NoSkip(afterKey);
      ReadKeyed(key, afterKey, x, tail);
    }
    assert q + ": " + d + tail == q + afterKey;
    ReadMemberAfter(lead, q + afterKey);
  }

  /** A member read after whitespace is the member read without it. */
  lemma ReadMemberAfter(w: string, t: string)
    requires AllJsonSpace(w)
    ensures ReadMember(w + t) == ReadMember(t)
  {
    SkipSpaceAfter(w, t);
  }

  /** The whole output of `custom_dumps` reads back as the value written. */
  lemma DumpsReadsBack(x: Json, indent: Option<int>, level: int)
    requires NoQuotes(x)
    ensures ReadValue(Dumps(x, indent, level)) == Some((x, []))
  {
    ReadDumps(x, indent, level, []);
    assert Dumps(x, indent, level) + [] == Dumps(x, indent, level);
  }
}
