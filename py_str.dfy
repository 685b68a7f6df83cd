/** The parts of Python's `str` and `list` built-ins that the modelled code calls. */
module PyStr {

  /** `str.isspace()` for one character (Python's whitespace set, Unicode included). */
  predicate IsSpace(c: char)
  {
    c == ' ' || c == '\t' || c == '\n' || c == '\r' || c == '\U{000B}' || c == '\U{000C}'
    || ('\U{001C}' <= c <= '\U{001F}') || c == '\U{0085}' || c == '\U{00A0}' || c == '\U{1680}'
    || ('\U{2000}' <= c <= '\U{200A}') || c == '\U{2028}' || c == '\U{2029}' || c == '\U{202F}'
    || c == '\U{205F}' || c == '\U{3000}'
  }

  /** True when `s` holds no whitespace character. */
  predicate NoSpace(s: string)
  {
    forall i :: 0 <= i < |s| ==> !IsSpace(s[i])
  }

  /** `s.lstrip()`: drops the leading whitespace. */
  function LStrip(s: string): (r: string)
    ensures |r| <= |s|
    ensures r == [] || !IsSpace(r[0])
  {
    if |s| > 0 && IsSpace(s[0]) then LStrip(s[1..]) else s
  }

  /** What `lstrip` drops is whitespace, and what it keeps is a suffix. */
  lemma {:induction false} LStripped(s: string)
    ensures LStrip(s) == s[|s| - |LStrip(s)|..]
    ensures forall i :: 0 <= i < |s| - |LStrip(s)| ==> IsSpace(s[i])
    decreases |s|
  {
    if |s| > 0 && IsSpace(s[0]) {
      LStripped(s[1..]);
    }
  }

  /** `s.rstrip()`: drops the trailing whitespace. */
  function RStrip(s: string): (r: string)
    ensures |r| <= |s|
    ensures r == [] || !IsSpace(r[|r| - 1])
  {
    if |s| > 0 && IsSpace(s[|s| - 1]) then RStrip(s[..|s| - 1]) else s
  }

  /** What `rstrip` drops is whitespace, and what it keeps is a prefix. */
  lemma {:induction false} RStripped(s: string)
    ensures RStrip(s) == s[..|RStrip(s)|]
    ensures forall i :: |RStrip(s)| <= i < |s| ==> IsSpace(s[i])
    decreases |s|
  {
    if |s| > 0 && IsSpace(s[|s| - 1]) {
      RStripped(s[..|s| - 1]);
    }
  }

  /** `s.strip()`. */
  function Strip(s: string): (r: string)
    ensures |r| <= |s|
    ensures r == [] || (!IsSpace(r[0]) && !IsSpace(r[|r| - 1]))
  {
    RStripped(LStrip(s));
    RStrip(LStrip(s))
  }

  /** `s.find(c, from)` for a one-character needle: the first index `>= from` holding `c`, or -1. */
  function Find(s: string, c: char, from: nat): (r: int)
    ensures r == -1 || (from <= r < |s| && s[r] == c)
    ensures forall i :: from <= i < |s| && (r == -1 || i < r) ==> s[i] != c
    decreases |s| - from
  {
    if from >= |s| then -1 else if s[from] == c then from else Find(s, c, from + 1)
  }

  /** How Python reads a slice bound or a search start against a length `len`: a negative index
      counts from the end, and the result is clamped to `0..len`. */
  function Bound(len: nat, i: int): (r: nat)
    ensures r <= len
    ensures 0 <= i <= len ==> r == i
  {
    if i < 0 then (if len + i < 0 then 0 else len + i) else if i > len then len else i
  }

  /** `s[i:j]`. */
  function Slice(s: string, i: int, j: int): string
  {
    var a, b := Bound(|s|, i), Bound(|s|, j);
    if a < b then s[a..b] else []
  }

  /** `s.find(c, from)` for any `from`, a negative one counting from the end. */
  function FindFrom(s: string, c: char, from: int): int
  {
    Find(s, c, Bound(|s|, from))
  }

  /** True when `sub` occurs in `s` at index `i`. */
  predicate OccursAt(s: string, sub: string, i: nat)
  {
    i + |sub| <= |s| && s[i..i + |sub|] == sub
  }

  /** `s.find(sub, from)`: the first index `>= from` where `sub` occurs, or -1. */
  function IndexOfFrom(s: string, sub: string, from: nat): (r: int)
    ensures r == -1 || (from <= r && OccursAt(s, sub, r))
    ensures forall i :: from <= i && (r == -1 || i < r) ==> !OccursAt(s, sub, i)
    decreases |s| - from
  {
    if from + |sub| > |s| then -1
    else if s[from..from + |sub|] == sub then from
    else IndexOfFrom(s, sub, from + 1)
  }

  /** `s.find(sub)`. */
  function IndexOf(s: string, sub: string): int
  {
    IndexOfFrom(s, sub, 0)
  }

  /** `sub in s`. */
  predicate Contains(s: string, sub: string)
  {
    IndexOf(s, sub) != -1
  }

  /** `sub` occurs in any string that has it as a piece. */
  lemma ConcatContains(a: string, sub: string, b: string)
    ensures Contains(a + sub + b, sub)
  {
    assert (a + sub + b)[|a|..|a| + |sub|] == sub;
    assert OccursAt(a + sub + b, sub, |a|);
  }

  /** A string ending with `sub` contains it. */
  lemma EndContains(a: string, sub: string)
    ensures Contains(a + sub, sub)
  {
    assert (a + sub)[|a|..|a| + |sub|] == sub;
    assert OccursAt(a + sub, sub, |a|);
  }

  /** An occurrence in `b` is an occurrence in `a + b`. */
  lemma ContainsAfter(a: string, b: string, sub: string)
    requires Contains(b, sub)
    ensures Contains(a + b, sub)
  {
    var i := IndexOf(b, sub);
    assert (a + b)[|a| + i..|a| + i + |sub|] == b[i..i + |sub|];
    assert OccursAt(a + b, sub, |a| + i);
  }

  /** An occurrence in `a` is an occurrence in `a + b`. */
  lemma ContainsBefore(a: string, b: string, sub: string)
    requires Contains(a, sub)
    ensures Contains(a + b, sub)
  {
    var i := IndexOf(a, sub);
    assert (a + b)[i..i + |sub|] == a[i..i + |sub|];
    assert OccursAt(a + b, sub, i);
  }

  /** `s.startswith(p)`. */
  predicate StartsWith(s: string, p: string)
  {
    |p| <= |s| && s[..|p|] == p
  }

  /** `s.endswith(p)`. */
  predicate EndsWith(s: string, p: string)
  {
    |p| <= |s| && s[|s| - |p|..] == p
  }

  /** `s.split()` has at least one part: `s` holds a non-whitespace character. */
  predicate HasWord(s: string)
  {
    exists i :: 0 <= i < |s| && !IsSpace(s[i])
  }

  /** The longest prefix of `s` without whitespace. */
  function TakeWord(s: string): (r: string)
    ensures |r| <= |s| && r == s[..|r|] && NoSpace(r)
    ensures |r| == |s| || IsSpace(s[|r|])
  {
    if |s| == 0 || IsSpace(s[0]) then [] else [s[0]] + TakeWord(s[1..])
  }

  /** `s.split()[0]`: the first whitespace-separated word of `s`; empty when `s` has no word,
      where Python raises `IndexError` instead (see `FirstWordFound`). */
  function FirstWord(s: string): (r: string)
    ensures NoSpace(r)
  {
    TakeWord(LStrip(s))
  }

  /** `s.split()` has a first word exactly when `s` holds a non-whitespace character. */
  lemma FirstWordFound(s: string)
    ensures |FirstWord(s)| > 0 <==> HasWord(s)
  {
    var t := LStrip(s);
    LStripped(s);
    if HasWord(s) {
      var i :| 0 <= i < |s| && !IsSpace(s[i]);
      assert i >= |s| - |t|;
    }
    if |t| > 0 {
      assert s[|s| - |t|] == t[0];
    }
  }

  /** `s.split(sep)[0]`: the part of `s` before the first `sep`, or all of `s`. */
  function Before(s: string, sep: string): (r: string)
    requires |sep| > 0
    ensures |r| <= |s| && r == s[..|r|]
    ensures !Contains(r, sep)
  {
    var i := IndexOf(s, sep);
    if i == -1 then s
    else
      assert forall j :: 0 <= j && OccursAt(s[..i], sep, j) ==> OccursAt(s, sep, j);
      s[..i]
  }

  /** `s.split(sep)[1]`: the part between the first and the second `sep`. */
  function After(s: string, sep: string): string
    requires |sep| > 0 && Contains(s, sep)
  {
    var i := IndexOf(s, sep);
    Before(s[i + |sep|..], sep)
  }

  /** `s.replace(pat, rep)`: every non-overlapping occurrence, left to right. */
  function Replace(s: string, pat: string, rep: string): string
    decreases |s|
  {
    if |pat| == 0 then
      if s == [] then rep else rep + [s[0]] + Replace(s[1..], pat, rep)
    else if s == [] then []
    else if StartsWith(s, pat) then rep + Replace(s[|pat|..], pat, rep)
    else [s[0]] + Replace(s[1..], pat, rep)
  }

  /** `"".join(parts)`. */
  function Concat(parts: seq<string>): string
  {
    if parts == [] then [] else Concat(parts[..|parts| - 1]) + parts[|parts| - 1]
  }

  /** `sep.join(parts)`. */
  function Join(sep: string, parts: seq<string>): string
  {
    if parts == [] then []
    else if |parts| == 1 then parts[0]
    else Join(sep, parts[..|parts| - 1]) + sep + parts[|parts| - 1]
  }

  /** `sep.join` seen from the front: the first part, the separator, then the others joined. */
  lemma {:induction false} JoinFront(sep: string, parts: seq<string>)
    requires |parts| >= 2
    ensures Join(sep, parts) == parts[0] + sep + Join(sep, parts[1..])
    decreases |parts|
  {
    var n := |parts|;
    if n > 2 {
      JoinFront(sep, parts[..n - 1]);
      assert parts[..n - 1][1..] == parts[1..][..n - 2];
    }
  }

  /** `" " * n`. */
  function Spaces(n: nat): (r: string)
    ensures |r| == n && forall i :: 0 <= i < n ==> r[i] == ' '
  {
    if n == 0 then [] else Spaces(n - 1) + " "
  }

  /** `lst.insert(i, x)` for `i >= 0`: an index past the end appends. */
  function InsertAt<T>(s: seq<T>, i: int, x: T): (r: seq<T>)
    requires i >= 0
  {
    var j := if i > |s| then |s| else i;
    s[..j] + [x] + s[j..]
  }

  /** The decimal digit for `d`. */
  function Digit(d: nat): char
    requires d < 10
  {
    ['0', '1', '2', '3', '4', '5', '6', '7', '8', '9'][d]
  }

  /** `str(n)` for a non-negative integer. */
  function NatToStr(n: nat): (r: string)
    ensures |r| > 0
  {
    if n < 10 then [Digit(n)] else NatToStr(n / 10) + [Digit(n % 10)]
  }

  /** `str(n)`. */
  function IntToStr(n: int): string
  {
    if n < 0 then "-" + NatToStr(-n) else NatToStr(n)
  }

  /** A string with no whitespace at either end is its own `strip()`. */
  lemma StripTrimmed(s: string)
    requires s == [] || (!IsSpace(s[0]) && !IsSpace(s[|s| - 1]))
    ensures Strip(s) == s
  {
  }

  /** Where the scan of a line `<c>` finds its brackets. */
  lemma OneTagBrackets(c: string)
    requires '<' !in c && '>' !in c
    ensures var line := "<" + c + ">";
      Find(line, '<', 0) == 0 && Find(line, '>', 0) == |line| - 1
      && line[1..|line| - 1] == c && Find(line, '<', |line| - 1) == -1
  {
    var line := "<" + c + ">";
    var end := |line| - 1;
    assert line[0] == '<' && line[end] == '>';
    assert forall i :: 0 < i < end ==> line[i] == c[i - 1];
    assert forall i :: 0 <= i < end ==> line[i] != '>';
    assert forall i :: 0 < i <= end ==> line[i] != '<';
    assert line[1..end] == c;
  }

  /** A word without whitespace is its own first word. */
  lemma {:induction false} WholeWord(w: string)
    requires NoSpace(w)
    ensures TakeWord(w) == w
  {
    if |w| > 0 {
      WholeWord(w[1..]);
    }
  }

  lemma SingleWord(w: string)
    requires |w| > 0 && NoSpace(w)
    ensures HasWord(w) && FirstWord(w) == w
  {
    assert !IsSpace(w[0]);
    WholeWord(w);
  }

  /** Removing every `p` from `x + p`, where `x` does not hold the first character of `p`,
      leaves `x`. */
  lemma {:induction false} ReplaceTrailing(x: string, p: string)
    requires |p| > 0 && p[0] !in x
    ensures Replace(x + p, p, "") == x
  {
    if x == [] {
      assert x + p == p && StartsWith(p, p) && p[|p|..] == [];
    } else {
      assert (x + p)[0] == x[0] != p[0];
      assert !StartsWith(x + p, p);
      assert (x + p)[1..] == x[1..] + p;
      ReplaceTrailing(x[1..], p);
    }
  }

  /** A string whose last non-whitespace character is `c` strips to a string ending in `c`. */
  lemma StripEndsWith(a: string, c: char, b: string)
    requires !IsSpace(c) && AllSpace(b)
    ensures EndsWith(Strip(a + [c] + b), [c])
  {
    var s := a + [c] + b;
    var u := LStrip(s);
    LStripped(s);
    var k := |s| - |u|;
    assert s[|a|] == c;
    assert k <= |a|;
    var j := |a| - k;
    assert u[j] == c;
    assert forall i :: j < i < |u| ==> IsSpace(u[i]) by {
      forall i | j < i < |u|
        ensures IsSpace(u[i])
      {
        assert u[i] == s[k + i] == b[i - j - 1];
      }
    }
    var r := RStrip(u);
    RStripped(u);
    assert |r| > j;
    assert r[j] == c;
  }

  /** `s.strip()` is empty exactly when `s` is whitespace only. */
  lemma StripEmpty(s: string)
    ensures Strip(s) == [] <==> AllSpace(s)
  {
    var t := LStrip(s);
    LStripped(s);
    RStripped(t);
    if t != [] {
      assert s[|s| - |t|] == t[0] && !IsSpace(t[0]);
    }
  }

  /** Every character of `s` is whitespace. */
  predicate AllSpace(s: string)
  {
    forall i :: 0 <= i < |s| ==> IsSpace(s[i])
  }

  /** No element twice. */
  ghost predicate Distinct<T>(s: seq<T>)
  {
    forall i, j :: 0 <= i < j < |s| ==> s[i] != s[j]
  }

  /** `s.index(x)`: the first index of `x` in `s`. */
  function Position<T(==)>(s: seq<T>, x: T): (r: nat)
    requires x in s
    ensures r < |s| && s[r] == x && x !in s[..r]
  {
    if s[0] == x then 0
    else
      var p := Position(s[1..], x);
      assert s[..p + 1] == [s[0]] + s[1..][..p];
      1 + p
  }

  lemma {:induction false} PositionPrefix<T>(s: seq<T>, k: T, y: T)
    requires y in s
    ensures Position(s + [k], y) == Position(s, y)
  {
    if s[0] != y {
      assert (s + [k])[1..] == s[1..] + [k];
      PositionPrefix(s[1..], k, y);
    }
  }

  lemma PositionLast<T>(s: seq<T>, k: T)
    requires k !in s
    ensures Position(s + [k], k) == |s|
  {
  }
}
