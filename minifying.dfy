/** GUI/MINIFYING.py: `parse_xml` cuts a document into tag and text elements with a
    per-character loop, `generate_minified_xml` concatenates them, and `minify_xml` chains the two.
    Whitespace around texts disappears; a tag keeps every character between its `<` and `>`. */
module Minifying {
  import opened PyStr

  /** `('tag', content)` or `('text', content)`. */
  datatype Element = TagElement(content: string) | TextElement(content: string)

  /** The variables of `parse_xml` between two characters. */
  datatype Scanner = Scanner(elements: seq<Element>, tag: string, text: string, insideTag: bool)

  function Start(): Scanner
  {
    Scanner([], [], [], false)
  }

  /** `if text.strip(): elements.append(('text', text.strip()))`. */
  function Flush(elements: seq<Element>, text: string): seq<Element>
  {
    if Strip(text) != [] then elements + [TextElement(Strip(text))] else elements
  }

  /** The loop body of `parse_xml` for one character: `<` flushes the text and opens a tag buffer,
      `>` emits the tag buffer plus `>` (whether or not a tag is open), any other character goes to
      the tag buffer inside a tag and to the text buffer outside. */
  function Step(sc: Scanner, c: char): Scanner
  {
    if c == '<' then Scanner(Flush(sc.elements, sc.text), "<", [], true)
    else if c == '>' then Scanner(sc.elements + [TagElement(sc.tag + ">")], [], sc.text, false)
    else if sc.insideTag then Scanner(sc.elements, sc.tag + [c], sc.text, true)
    else Scanner(sc.elements, sc.tag, sc.text + [c], false)
  }

  /** The scanner after the first `n` characters of `s`. */
  function Scan(s: string, n: nat): Scanner
    requires n <= |s|
  {
    if n == 0 then Start() else Step(Scan(s, n - 1), s[n - 1])
  }

  /** `parse_xml(file_content)`: the elements once every character is read and the remaining text
      flushed; an unterminated tag buffer is dropped. */
  function ParseXmlSpec(s: string): seq<Element>
  {
    var sc := Scan(s, |s|);
    Flush(sc.elements, sc.text)
  }

  /** The contents of `elements`, in order. */
  function Contents(elements: seq<Element>): string
  {
    if elements == [] then [] else Contents(elements[..|elements| - 1]) + elements[|elements| - 1].content
  }

  /** `minify_xml(input_xml)`. */
  function MinifySpec(s: string): string
  {
    Contents(ParseXmlSpec(s))
  }

  // ---------------------------------------------------------------------------------------------
  // The loops

  /** `parse_xml`, character by character. */
  method ParseXml(fileContent: string) returns (elements: seq<Element>)
    ensures elements == ParseXmlSpec(fileContent)
  {
    elements := [];
    var tag: string := [];
    var text: string := [];
    var insideTag := false;
    var i := 0;
    while i < |fileContent|
      invariant i <= |fileContent|
      invariant Scan(fileContent, i) == Scanner(elements, tag, text, insideTag)
    {
      var c := fileContent[i];
      if c == '<' {
        if Strip(text) != [] {
          elements := elements + [TextElement(Strip(text))];
        }
        text := [];
        insideTag := true;
        tag := "<";
      } else if c == '>' {
        tag := tag + ">";
        elements := elements + [TagElement(tag)];
        tag := [];
        insideTag := false;
      } else if insideTag {
        tag := tag + [c];
      } else {
        text := text + [c];
      }
      i := i + 1;
    }
    if Strip(text) != [] {
      elements := elements + [TextElement(Strip(text))];
    }
  }

  /** `generate_minified_xml`: both kinds of element contribute their content. */
  method GenerateMinifiedXml(elements: seq<Element>) returns (minified: string)
    ensures minified == Contents(elements)
  {
    minified := [];
    var i := 0;
    while i < |elements|
      invariant i <= |elements|
      invariant minified == Contents(elements[..i])
    {
      assert elements[..i + 1][..i] == elements[..i];
      match elements[i] {
        case TagElement(content) =>
          minified := minified + content;
        case TextElement(content) =>
          minified := minified + content;
      }
      i := i + 1;
    }
    assert elements[..i] == elements;
  }

  /** `minify_xml`: the minified document, never longer than the input. The `except` clause that
      turns an exception into `ValueError` has nothing to catch: neither step can raise. */
  method MinifyXml(inputXml: string) returns (r: string)
    ensures r == MinifySpec(inputXml)
    ensures |r| <= |inputXml|
  {
    var elements := ParseXml(inputXml);
    r := GenerateMinifiedXml(elements);
    MinifyShorter(inputXml);
  }

  // ---------------------------------------------------------------------------------------------
  // Properties

  /** The number of tag elements. */
  function TagCount(elements: seq<Element>): nat
  {
    if elements == [] then 0
    else TagCount(elements[..|elements| - 1]) + if elements[|elements| - 1].TagElement? then 1 else 0
  }

  /** The number of occurrences of `c` in `s`. */
  function CharCount(s: string, c: char): nat
  {
    if s == [] then 0 else CharCount(s[..|s| - 1], c) + if s[|s| - 1] == c then 1 else 0
  }

  lemma ContentsAppend(elements: seq<Element>, e: Element)
    ensures Contents(elements + [e]) == Contents(elements) + e.content
  {
    assert (elements + [e])[..|elements|] == elements;
  }

  lemma TagCountAppend(elements: seq<Element>, e: Element)
    ensures TagCount(elements + [e]) == TagCount(elements) + if e.TagElement? then 1 else 0
  {
    assert (elements + [e])[..|elements|] == elements;
  }

  /** A flush adds at most the stripped text, and never a tag element. */
  lemma FlushAdds(elements: seq<Element>, text: string)
    ensures |Contents(Flush(elements, text))| <= |Contents(elements)| + |text|
    ensures TagCount(Flush(elements, text)) == TagCount(elements)
  {
    if Strip(text) != [] {
      ContentsAppend(elements, TextElement(Strip(text)));
      TagCountAppend(elements, TextElement(Strip(text)));
    }
  }

  /** The characters a scanner holds: the contents emitted so far and the two buffers. */
  function Held(sc: Scanner): nat
  {
    |Contents(sc.elements)| + |sc.tag| + |sc.text|
  }

  /** One character adds at most one held character: it lands in at most one place, and a flush
      only drops some. */
  lemma StepHeld(sc: Scanner, c: char)
    ensures Held(Step(sc, c)) <= Held(sc) + 1
  {
    if c == '<' {
      FlushAdds(sc.elements, sc.text);
    } else if c == '>' {
      ContentsAppend(sc.elements, TagElement(sc.tag + ">"));
    }
  }

  /** While scanning, the scanner holds no more characters than were read. */
  lemma {:induction false} ScanShorter(s: string, n: nat)
    requires n <= |s|
    ensures Held(Scan(s, n)) <= n
  {
    if n > 0 {
      ScanShorter(s, n - 1);
      StepHeld(Scan(s, n - 1), s[n - 1]);
    }
  }

  /** The minified document is never longer than the input. */
  lemma MinifyShorter(s: string)
    ensures |MinifySpec(s)| <= |s|
  {
    ScanShorter(s, |s|);
    var sc := Scan(s, |s|);
    FlushAdds(sc.elements, sc.text);
    assert Held(sc) <= |s|;
  }

  /** Exactly one tag element is emitted per `>` of the input, and no other tag element: a `<`
      only flushes text. */
  lemma {:induction false} TagsPerClose(s: string, n: nat)
    requires n <= |s|
    ensures TagCount(Scan(s, n).elements) == CharCount(s[..n], '>')
  {
    if n > 0 {
      TagsPerClose(s, n - 1);
      var sc := Scan(s, n - 1);
      assert s[..n][..n - 1] == s[..n - 1];
      if s[n - 1] == '<' {
        FlushAdds(sc.elements, sc.text);
      } else if s[n - 1] == '>' {
        TagCountAppend(sc.elements, TagElement(sc.tag + ">"));
      }
    }
  }

  /** `parse_xml` emits as many tag elements as the input has `>` characters. */
  lemma TagElementCount(s: string)
    ensures TagCount(ParseXmlSpec(s)) == CharCount(s, '>')
  {
    TagsPerClose(s, |s|);
    var sc := Scan(s, |s|);
    FlushAdds(sc.elements, sc.text);
    assert s[..|s|] == s;
  }

  /** Every element `parse_xml` emits is well shaped: a text element is non-empty with no whitespace
      at either end; a tag element ends in `>` and is a stretch of the input taken verbatim (a `<`
      and the characters after it, or a lone `>`). */
  predicate WellShaped(s: string, e: Element)
  {
    match e
    case TextElement(t) => t != [] && !IsSpace(t[0]) && !IsSpace(t[|t| - 1])
    case TagElement(t) =>
      |t| > 0 && t[|t| - 1] == '>' && (|t| == 1 || t[0] == '<')
      && exists j :: 0 <= j <= |s| - |t| && OccursAt(s, t, j)
  }

  /** The scanner after `n` characters of `s`: the tag buffer is the last characters read (empty
      outside a tag, starting with `<` inside one), and every element so far is well shaped. */
  predicate ShapedAt(s: string, n: nat, sc: Scanner)
    requires n <= |s|
  {
    |sc.tag| <= n && sc.tag == s[n - |sc.tag|..n] && (sc.insideTag <==> sc.tag != [])
    && (sc.tag != [] ==> sc.tag[0] == '<')
    && AllShaped(s, sc.elements)
  }

  predicate AllShaped(s: string, elements: seq<Element>)
  {
    forall i :: 0 <= i < |elements| ==> WellShaped(s, elements[i])
  }

  /** Appending a well-shaped element keeps every element well shaped. */
  lemma AppendShaped(s: string, elements: seq<Element>, e: Element)
    requires AllShaped(s, elements) && WellShaped(s, e)
    ensures AllShaped(s, elements + [e])
  {
    var r := elements + [e];
    forall i | 0 <= i < |r| ensures WellShaped(s, r[i]) {
      if i < |elements| {
        assert r[i] == elements[i];
      }
    }
  }

  lemma StepShaped(s: string, n: nat, sc: Scanner)
    requires 0 < n <= |s| && ShapedAt(s, n - 1, sc)
    ensures ShapedAt(s, n, Step(sc, s[n - 1]))
  {
    var c := s[n - 1];
    if c == '<' {
      FlushShaped(s, sc.elements, sc.text);
    } else if c == '>' {
      ClosedTagShaped(s, n, sc.tag);
      AppendShaped(s, sc.elements, TagElement(sc.tag + ">"));
    } else if sc.insideTag {
      assert sc.tag + [c] == s[n - |sc.tag| - 1..n];
    }
  }

  /** The tag a `>` closes is the stretch of the input that ends at that `>`. */
  lemma ClosedTagShaped(s: string, n: nat, tag: string)
    requires 0 < n <= |s| && s[n - 1] == '>'
    requires |tag| <= n - 1 && tag == s[n - 1 - |tag|..n - 1] && (tag != [] ==> tag[0] == '<')
    ensures WellShaped(s, TagElement(tag + ">"))
  {
    var t := tag + ">";
    assert t == s[n - |t|..n];
    assert OccursAt(s, t, n - |t|);
  }

  lemma {:induction false} ScanShaped(s: string, n: nat)
    requires n <= |s|
    ensures ShapedAt(s, n, Scan(s, n))
  {
    if n > 0 {
      ScanShaped(s, n - 1);
      StepShaped(s, n, Scan(s, n - 1));
    }
  }

  lemma FlushShaped(s: string, elements: seq<Element>, text: string)
    requires AllShaped(s, elements)
    ensures AllShaped(s, Flush(elements, text))
  {
    if Strip(text) != [] {
      AppendShaped(s, elements, TextElement(Strip(text)));
    }
  }

  /** Every element of `parse_xml(s)` is well shaped. */
  lemma ParsedShaped(s: string)
    ensures forall i :: 0 <= i < |ParseXmlSpec(s)| ==> WellShaped(s, ParseXmlSpec(s)[i])
  {
    ScanShaped(s, |s|);
    var sc := Scan(s, |s|);
    FlushShaped(s, sc.elements, sc.text);
  }

  /** The scan depends only on the characters read so far. */
  lemma {:induction false} ScanPrefix(s: string, t: string, n: nat)
    requires n <= |s| && n <= |t| && s[..n] == t[..n]
    ensures Scan(s, n) == Scan(t, n)
  {
    if n > 0 {
      assert s[n - 1] == s[..n][n - 1] == t[..n][n - 1] == t[n - 1];
      assert s[..n - 1] == s[..n][..n - 1];
      assert t[..n - 1] == t[..n][..n - 1];
      ScanPrefix(s, t, n - 1);
    }
  }

  /** Inside a tag, characters other than `<` and `>` only grow the tag buffer. */
  lemma {:induction false} InsideTag(s: string, from: nat, n: nat)
    requires from <= n <= |s| && Scan(s, from).insideTag
    requires forall i :: from <= i < n ==> s[i] != '<' && s[i] != '>'
    ensures Scan(s, n).insideTag && Scan(s, n).elements == Scan(s, from).elements
    ensures Scan(s, n).text == Scan(s, from).text
    decreases n - from
  {
    if from < n {
      InsideTag(s, from, n - 1);
    }
  }

  /** A tag left open at the end of the input is dropped: the text before it is emitted as it would
      have been at the end, and nothing of the tag. */
  lemma UnterminatedTagDropped(s: string, x: string)
    requires '<' !in x && '>' !in x
    ensures ParseXmlSpec(s + "<" + x) == ParseXmlSpec(s)
  {
    var u := s + "<" + x;
    assert u[..|s|] == s[..|s|];
    ScanPrefix(u, s, |s|);
    var sc := Scan(s, |s|);
    assert Scan(u, |s| + 1) == Scanner(Flush(sc.elements, sc.text), "<", [], true);
    forall i | |s| + 1 <= i < |u| ensures u[i] != '<' && u[i] != '>' {
      assert u[i] == x[i - |s| - 1];
    }
    InsideTag(u, |s| + 1, |u|);
    assert Strip([]) == [];
  }

  // ---------------------------------------------------------------------------------------------
  // A `>` outside a tag

  /** As written, a `>` in text content (legal in XML) is emitted at once as a tag element of its
      own while the text around it keeps accumulating, so it moves in front of that text. */
  lemma StrayCloseMovesAhead()
    ensures MinifySpec("a>b") == ">ab"
  {
    StrayCloseScan();
    StripTrimmed("ab");
    assert ParseXmlSpec("a>b") == [TagElement(">"), TextElement("ab")];
    ContentsAppend([TagElement(">")], TextElement("ab"));
    ContentsAppend([], TagElement(">"));
    assert [] + [TagElement(">")] == [TagElement(">")];
  }

  lemma StrayCloseScan()
    ensures Scan("a>b", 3) == Scanner([TagElement(">")], [], "ab", false)
  {
    var s := "a>b";
    assert Scan(s, 1) == Scanner([], [], "a", false);
    assert [] + ">" == ">";
    assert Scan(s, 2) == Scanner([TagElement(">")], [], "a", false);
  }

  /** The evidently intended step: `>` closes a tag only when one is open, and is text otherwise. */
  function FixedStep(sc: Scanner, c: char): Scanner
  {
    if c == '<' then Scanner(Flush(sc.elements, sc.text), "<", [], true)
    else if c == '>' && sc.insideTag then Scanner(sc.elements + [TagElement(sc.tag + ">")], [], sc.text, false)
    else if sc.insideTag then Scanner(sc.elements, sc.tag + [c], sc.text, true)
    else Scanner(sc.elements, sc.tag, sc.text + [c], false)
  }

  function FixedScan(s: string, n: nat): Scanner
    requires n <= |s|
  {
    if n == 0 then Start() else FixedStep(FixedScan(s, n - 1), s[n - 1])
  }

  /** The minified document with the corrected step. */
  function FixedMinifySpec(s: string): string
  {
    var sc := FixedScan(s, |s|);
    Contents(Flush(sc.elements, sc.text))
  }

  /** With no `<`, the corrected scanner only accumulates text, `>` included. */
  lemma {:induction false} FixedScanText(s: string, n: nat)
    requires n <= |s| && '<' !in s
    ensures FixedScan(s, n) == Scanner([], [], s[..n], false)
  {
    if n > 0 {
      FixedScanText(s, n - 1);
      assert s[..n] == s[..n - 1] + [s[n - 1]];
    }
  }

  /** A document without tags minifies to its stripped text, with every `>` kept in place. */
  lemma FixedTextOnly(s: string)
    requires '<' !in s
    ensures FixedMinifySpec(s) == Strip(s)
  {
    FixedScanText(s, |s|);
    assert s[..|s|] == s;
    FlushAlone(s);
  }

  /** Flushing a text with no element before it leaves just the stripped text. */
  lemma FlushAlone(text: string)
    ensures Contents(Flush([], text)) == Strip(text)
  {
    if Strip(text) != [] {
      ContentsAppend([], TextElement(Strip(text)));
      assert [] + [TextElement(Strip(text))] == [TextElement(Strip(text))];
    }
  }
}
