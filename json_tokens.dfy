/** The token level of GUI/json_utils.py: `tokenize`, the three token tests, `get_tag_name` and
    `get_text_value`. */
module JsonTokens {
  import opened Common
  import opened PyStr

  /** A token of the first kind `<[^>]+>`: `<`, one or more characters other than `>`, then `>`. */
  predicate IsTagToken(t: string)
  {
    |t| >= 3 && t[0] == '<' && t[|t| - 1] == '>' && '>' !in t[1..|t| - 1]
  }

  /** A token of the second kind `[^<]+`: a non-empty run of characters other than `<`. */
  predicate IsTextToken(t: string)
  {
    |t| > 0 && '<' !in t
  }

  /** The length of the longest prefix of `s` without `<`. */
  function TextRun(s: string): (n: nat)
    ensures n <= |s| && '<' !in s[..n] && (n == |s| || s[n] == '<')
  {
    var j := Find(s, '<', 0);
    if j == -1 then |s| else j
  }

  /** `re.findall(r"<[^>]+>|[^<]+", s)`: at each position a tag running to the first `>` (with at
      least one character inside), else a maximal run of text; a `<` that starts neither is
      skipped. */
  function Tokenize(s: string): (r: seq<string>)
    ensures forall i :: 0 <= i < |r| ==> IsTagToken(r[i]) || IsTextToken(r[i])
    decreases |s|
  {
    if s == [] then []
    else if s[0] == '<' then
      var j := Find(s, '>', 1);
      if j >= 2 then
        assert '>' !in s[1..j] by {
          assert forall i :: 1 <= i < j ==> s[1..j][i - 1] == s[i];
        }
        [s[..j + 1]] + Tokenize(s[j + 1..])
      else Tokenize(s[1..])
    else
      var n := TextRun(s);
      [s[..n]] + Tokenize(s[n..])
  }

  /** A sequence of tokens as `tokenize` cuts them: each of one of the two kinds, and no two
      text tokens next to each other (a text run is always maximal). */
  predicate WellCut(ts: seq<string>)
  {
    (forall i :: 0 <= i < |ts| ==> IsTagToken(ts[i]) || IsTextToken(ts[i]))
    && forall i :: 0 <= i < |ts| - 1 && IsTextToken(ts[i]) ==> IsTagToken(ts[i + 1])
  }

  /** `tokenize` cuts the concatenation of well-cut tokens back into those tokens. */
  lemma {:induction false} TokenizeConcat(ts: seq<string>)
    requires WellCut(ts)
    ensures Tokenize(ConcatFront(ts)) == ts
    decreases |ts|
  {
    if ts != [] {
      var t, rest := ts[0], ConcatFront(ts[1..]);
      var s := t + rest;
      assert WellCut(ts[1..]) by {
        forall i | 0 <= i < |ts[1..]| - 1 && IsTextToken(ts[1..][i]) ensures IsTagToken(ts[1..][i + 1]) {
          assert ts[1..][i] == ts[i + 1] && ts[1..][i + 1] == ts[i + 2];
        }
      }
      TokenizeConcat(ts[1..]);
      assert s[..|t|] == t && s[|t|..] == rest;
      if IsTagToken(t) {
        assert t !in [];
        FirstBracket(t, rest);
      } else {
        assert rest == [] || rest[0] == '<' by {
          if rest != [] {
            assert IsTagToken(ts[1]);
            assert rest == ts[1] + ConcatFront(ts[2..]);
          }
        }
        TextRunStops(t, rest);
      }
    }
  }

  /** `"".join(parts)`, built from the front. */
  function ConcatFront(parts: seq<string>): (r: string)
    ensures parts != [] ==> r == parts[0] + ConcatFront(parts[1..])
  {
    if parts == [] then [] else parts[0] + ConcatFront(parts[1..])
  }

  lemma FirstBracket(t: string, rest: string)
    requires IsTagToken(t)
    ensures Find(t + rest, '>', 1) == |t| - 1
  {
    var s := t + rest;
    FindFirst(s, '>', 1, |t| - 1);
  }

  /** The first index `>= from` holding `c`. */
  lemma FindFirst(s: string, c: char, from: nat, j: nat)
    requires from <= j < |s| && s[j] == c && forall i :: from <= i < j ==> s[i] != c
    ensures Find(s, c, from) == j
  {
  }

  lemma TextRunStops(t: string, rest: string)
    requires IsTextToken(t) && (rest == [] || rest[0] == '<')
    ensures TextRun(t + rest) == |t|
  {
    var s := t + rest;
    forall i | 0 <= i < |t| ensures s[i] != '<' {
      assert s[i] == t[i];
    }
    if rest != [] {
      FindFirst(s, '<', 0, |t|);
    }
  }

  /** `is_start_tag`. */
  predicate IsStartTag(token: string)
  {
    StartsWith(token, "<") && !StartsWith(token, "</") && !EndsWith(token, "/>")
  }

  /** `is_end_tag`. */
  predicate IsEndTag(token: string)
  {
    StartsWith(token, "</")
  }

  /** `is_text`. */
  predicate IsText(token: string)
  {
    !StartsWith(token, "<")
  }

  /** The three tests exclude each other; a token passes none of them exactly when it starts with
      `<` but not `</` and ends with `/>`, as a self-closing tag does. */
  lemma TokenKinds(token: string)
    ensures !(IsStartTag(token) && IsEndTag(token)) && !(IsStartTag(token) && IsText(token))
      && !(IsEndTag(token) && IsText(token))
    ensures !IsStartTag(token) && !IsEndTag(token) && !IsText(token)
      <==> StartsWith(token, "<") && !StartsWith(token, "</") && EndsWith(token, "/>")
  {
    if IsEndTag(token) {
      assert token[..1] == token[..2][..1];
    }
  }

  /** A self-closing tag token `<x/>` passes none of the three tests. */
  lemma SelfClosingIgnored(x: string)
    requires |x| > 0 && x[0] != '/'
    ensures var t := "<" + x + "/>"; !IsStartTag(t) && !IsEndTag(t) && !IsText(t)
  {
    var t := "<" + x + "/>";
    assert t[..1] == "<" && t[1] == x[0];
    assert t[|t| - 2..] == "/>";
    TokenKinds(t);
  }

  predicate IsBracket(c: char)
  {
    c == '<' || c == '>'
  }

  /** `s.strip("<>")`: drops every `<` and `>` at either end. */
  function StripBrackets(s: string): (r: string)
    ensures |r| <= |s|
    ensures r == [] || (!IsBracket(r[0]) && !IsBracket(r[|r| - 1]))
  {
    RStrippedBrackets(LStripBrackets(s));
    RStripBrackets(LStripBrackets(s))
  }

  function LStripBrackets(s: string): (r: string)
    ensures |r| <= |s|
    ensures r == [] || !IsBracket(r[0])
  {
    if |s| > 0 && IsBracket(s[0]) then LStripBrackets(s[1..]) else s
  }

  function RStripBrackets(s: string): (r: string)
    ensures |r| <= |s|
    ensures r == [] || !IsBracket(r[|r| - 1])
  {
    if |s| > 0 && IsBracket(s[|s| - 1]) then RStripBrackets(s[..|s| - 1]) else s
  }

  /** What `rstrip("<>")` keeps is a prefix, and it drops brackets only. */
  lemma {:induction false} RStrippedBrackets(s: string)
    ensures RStripBrackets(s) == s[..|RStripBrackets(s)|]
    ensures forall i :: |RStripBrackets(s)| <= i < |s| ==> IsBracket(s[i])
    decreases |s|
  {
    if |s| > 0 && IsBracket(s[|s| - 1]) {
      RStrippedBrackets(s[..|s| - 1]);
    }
  }

  /** `get_tag_name`: the first whitespace-separated word of the token without its brackets;
      `split()[0]` raises `IndexError` when there is none. A name found is a non-empty word. */
  function GetTagName(token: string): (r: Result<string>)
    ensures r.Ok? <==> HasWord(StripBrackets(token))
    ensures r.Ok? ==> |r.value| > 0 && NoSpace(r.value)
  {
    var inner := StripBrackets(token);
    FirstWordFound(inner);
    if HasWord(inner) then Ok(FirstWord(inner)) else Err("IndexError: list index out of range")
  }

  /** The name of a tag `<name rest>` is `name`: a word that neither starts with a bracket nor,
      when nothing follows it, ends with one, followed by nothing or by whitespace. */
  lemma TagNameOf(name: string, rest: string)
    requires |name| > 0 && NoSpace(name) && !IsBracket(name[0])
    requires rest == [] ==> !IsBracket(name[|name| - 1])
    requires rest != [] ==> IsSpace(rest[0])
    ensures GetTagName("<" + name + rest + ">") == Ok(name)
  {
    var t := "<" + name + rest + ">";
    var inner := name + rest;
    assert t[1..] == inner + ">";
    assert LStripBrackets(t) == LStripBrackets(t[1..]);
    assert LStripBrackets(inner + ">") == inner + ">";
    assert RStripBrackets(inner + ">") == RStripBrackets(inner);
    var r := RStripBrackets(inner);
    RStrippedBrackets(inner);
    var k := if rest == [] then |name| - 1 else |name|;
    assert inner[k] == (if rest == [] then name[|name| - 1] else rest[0]);
    assert !IsBracket(inner[k]);
    assert |r| > k;
    assert r[..|name|] == name;
    assert r == name + r[|name|..];
    assert r[|name|..] == [] || IsSpace(r[|name|]) by {
      if |r| > |name| {
        assert r[|name|] == inner[|name|] == rest[0];
      }
    }
    WordThenSpace(name, r[|name|..]);
  }

  /** The first word of `w + tail`, where `w` is a word and `tail` is empty or starts with
      whitespace, is `w`. */
  lemma WordThenSpace(w: string, tail: string)
    requires |w| > 0 && NoSpace(w) && (tail == [] || IsSpace(tail[0]))
    ensures HasWord(w + tail) && FirstWord(w + tail) == w
  {
    var s := w + tail;
    assert s[0] == w[0] && !IsSpace(s[0]);
    assert LStrip(s) == s;
    TakeWordPrefix(w, tail);
  }

  lemma {:induction false} TakeWordPrefix(w: string, tail: string)
    requires NoSpace(w) && (tail == [] || IsSpace(tail[0]))
    ensures TakeWord(w + tail) == w
    decreases |w|
  {
    if w != [] {
      assert (w + tail)[0] == w[0] && (w + tail)[1..] == w[1..] + tail;
      TakeWordPrefix(w[1..], tail);
    }
  }

  /** `get_text_value`: the stripped token, empty exactly when the token is whitespace only. */
  function GetTextValue(token: string): (r: string)
    ensures r == [] <==> AllSpace(token)
  {
    StripEmpty(token);
    Strip(token)
  }
}
