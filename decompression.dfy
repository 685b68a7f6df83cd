/** GUI/DECOMPRESSION.py: `reverse_bpe` undoes the merges of `byte_pair_encoding`, last merge
    first, and `decompress_xml_content` splits its input at the `===JSON_MAP===` delimiter. */
module Decompression {
  import opened Common
  import opened PyStr
  import opened Compression

  /** One `(new_char, pair)` item of the loaded mapping: a key string and the list `pair`. */
  datatype MapEntry = MapEntry(key: string, pair: seq<string>)

  /** `reverse_bpe(data, mapping)`: for each item, last first, every occurrence of the key is
      replaced by `''.join(pair)`. */
  function ReverseBpe(data: string, mapping: seq<MapEntry>): string
    decreases |mapping|
  {
    if mapping == [] then data
    else
      var e := mapping[|mapping| - 1];
      ReverseBpe(Replace(data, e.key, Concat(e.pair)), mapping[..|mapping| - 1])
  }

  /** `reverse_bpe`, over `reversed(mapping.items())`. */
  method ReverseBpeLoop(data: string, mapping: seq<MapEntry>) returns (r: string)
    ensures r == ReverseBpe(data, mapping)
    ensures mapping == [] ==> r == data
  {
    r := data;
    assert mapping[..|mapping|] == mapping;
    for i := |mapping| downto 0
      invariant ReverseBpe(r, mapping[..i]) == ReverseBpe(data, mapping)
    {
      assert mapping[..i + 1][..i] == mapping[..i];
      r := Replace(r, mapping[i].key, Concat(mapping[i].pair));
    }
  }

  /** The delimiter between the encoded data and the JSON mapping. */
  const Delimiter := "===JSON_MAP==="

  const MissingDelimiter := "Error during decompression: Invalid compressed data format. Missing '===JSON_MAP===' delimiter."
  const TooManyParts := "Error during decompression: too many values to unpack (expected 2)"

  /** The validation and split of `decompress_xml_content`: an error without the delimiter, an
      error when `split` gives more than two parts, and otherwise both parts stripped. */
  function SplitInput(s: string): Result<(string, string)>
  {
    if !Contains(s, Delimiter) then Err(MissingDelimiter)
    else
      var i := IndexOf(s, Delimiter);
      var rest := s[i + |Delimiter|..];
      if Contains(rest, Delimiter) then Err(TooManyParts)
      else Ok((Strip(s[..i]), Strip(rest)))
  }

  /** `decompress_xml_content(compressed_data)`. `loads` stands for `json.loads` followed by the
      conversion of the dict to its items, or the message of the exception either raises; the
      `except` clause prefixes that message. */
  method DecompressXmlContent(compressedData: string, loads: string -> Result<seq<MapEntry>>)
    returns (r: Result<string>)
    ensures SplitInput(compressedData).Err? ==> r == Err(SplitInput(compressedData).error)
    ensures SplitInput(compressedData).Ok? ==>
              var (dataPart, mappingJson) := SplitInput(compressedData).value;
              r == if loads(mappingJson).Err? then Err("Error during decompression: " + loads(mappingJson).error)
                   else Ok(ReverseBpe(dataPart, loads(mappingJson).value))
  {
    var parts := SplitInput(compressedData);
    if parts.Err? {
      return Err(parts.error);
    }
    var (dataPart, mappingJson) := parts.value;
    var mapping := loads(mappingJson);
    if mapping.Err? {
      return Err("Error during decompression: " + mapping.error);
    }
    var decompressed := ReverseBpeLoop(dataPart, mapping.value);
    r := Ok(decompressed);
  }

  // ---------------------------------------------------------------------------------------------
  // Properties

  /** Without the delimiter the input is refused. */
  lemma SplitMissing(a: string)
    requires !Contains(a, Delimiter)
    ensures SplitInput(a) == Err(MissingDelimiter)
  {
  }

  /** With the delimiter once, after a part that does not end inside a delimiter (as the newline
      `compress_xml_content` writes before it), the parts before and after it are returned
      stripped. */
  lemma SplitOnce(a: string, b: string)
    requires !Contains(a, Delimiter) && !Contains(b, Delimiter)
    requires a == [] || a[|a| - 1] !in Delimiter
    ensures SplitInput(a + Delimiter + b) == Ok((Strip(a), Strip(b)))
  {
    var s := a + Delimiter + b;
    FirstDelimiterAt(a, b);
    ConcatContains(a, Delimiter, b);
    assert s[..|a|] == a && s[|a| + |Delimiter|..] == b;
  }

  /** With the delimiter twice, `split` gives three parts and the input is refused. */
  lemma SplitTwice(a: string, b: string)
    requires !Contains(a, Delimiter)
    requires a == [] || a[|a| - 1] !in Delimiter
    ensures SplitInput(a + Delimiter + b + Delimiter) == Err(TooManyParts)
  {
    var t := a + Delimiter + (b + Delimiter);
    assert a + Delimiter + b + Delimiter == t;
    FirstDelimiterAt(a, b + Delimiter);
    ConcatContains(a, Delimiter, b + Delimiter);
    assert t[|a| + |Delimiter|..] == b + Delimiter;
    EndContains(b, Delimiter);
  }

  /** The first delimiter of `a + Delimiter + b` is the one after `a`, when `a` holds none and its
      last character cannot start or continue one. */
  lemma FirstDelimiterAt(a: string, b: string)
    requires !Contains(a, Delimiter)
    requires a == [] || a[|a| - 1] !in Delimiter
    ensures IndexOf(a + Delimiter + b, Delimiter) == |a|
  {
    var s := a + Delimiter + b;
    assert s[|a|..|a| + |Delimiter|] == Delimiter;
    assert OccursAt(s, Delimiter, |a|);
    var r := IndexOf(s, Delimiter);
    if r != |a| {
      assert r < |a|;
      if r + |Delimiter| <= |a| {
        assert a[r..r + |Delimiter|] == s[r..r + |Delimiter|];
        assert OccursAt(a, Delimiter, r);
      }
    }
  }

  /** The compression entry as the loaded mapping holds it: a one-character key and a two-string list. */
  function AsMapEntry(e: Entry): MapEntry
  {
    MapEntry([e.key], [[e.pair.first], [e.pair.second]])
  }

  function AsMap(mapping: seq<Entry>): seq<MapEntry>
  {
    seq(|mapping|, k requires 0 <= k < |mapping| => AsMapEntry(mapping[k]))
  }

  /** A merge is undone by replacing the new character by the pair, when the data did not hold
      that character before. */
  lemma {:induction false} ReplaceInverse(s: string, a: char, b: char, c: char)
    requires c !in s
    ensures Replace(Replace(s, [a, b], [c]), [c], [a, b]) == s
    decreases |s|
  {
    if s != [] {
      if StartsWith(s, [a, b]) {
        ReplaceInverse(s[2..], a, b, c);
        var t := Replace(s[2..], [a, b], [c]);
        assert Replace(s, [a, b], [c]) == [c] + t;
        assert StartsWith([c] + t, [c]) && ([c] + t)[1..] == t;
        assert s == [a, b] + s[2..];
      } else {
        ReplaceInverse(s[1..], a, b, c);
        var t := Replace(s[1..], [a, b], [c]);
        assert Replace(s, [a, b], [c]) == [s[0]] + t;
        assert !StartsWith([s[0]] + t, [c]) && ([s[0]] + t)[1..] == t;
        assert s == [s[0]] + s[1..];
      }
    }
  }

  /** `s` holds none of the characters `chr(256 + from)` .. `chr(265)`, the keys not yet used. */
  ghost predicate FreeFrom(s: string, from: nat)
  {
    forall i :: 0 <= i < |s| ==> !(256 + from <= s[i] as int < 256 + MaxRounds)
  }

  /** The invariant of the rounds: the mapping so far undoes to the original, and the data holds
      none of the keys still to come. */
  ghost predicate Undoes(original: string, st: Round)
  {
    |st.mapping| <= MaxRounds && KeysInOrder(st.mapping)
    && ReverseBpe(st.data, AsMap(st.mapping)) == original && FreeFrom(st.data, |st.mapping|)
  }

  lemma ReverseBpeAppend(data: string, mapping: seq<Entry>, e: Entry)
    ensures ReverseBpe(data, AsMap(mapping + [e])) == ReverseBpe(Replace(data, [e.key], [e.pair.first, e.pair.second]), AsMap(mapping))
  {
    var m := AsMap(mapping + [e]);
    assert m[..|mapping|] == AsMap(mapping);
    assert m[|mapping|] == AsMapEntry(e);
    var parts := [[e.pair.first], [e.pair.second]];
    assert parts[..1] == [[e.pair.first]] && [[e.pair.first]][..0] == [];
    assert Concat([[e.pair.first]]) == Concat([]) + [e.pair.first] == [e.pair.first];
    assert Concat(parts) == Concat(parts[..1]) + [e.pair.second];
    assert Concat(parts) == [e.pair.first, e.pair.second];
  }

  /** One merge keeps the invariant: its key was not in the data, so replacing it back by the pair
      gives the data before the merge. */
  lemma MergeUndoes(original: string, st: Round, best: Pair, i: nat, currentSize: int, currentDictSize: int)
    requires i < MaxRounds && |st.mapping| == i && Undoes(original, st)
    ensures var c := KeyOf(i);
      Undoes(original, Round(Replace(st.data, [best.first, best.second], [c]), st.mapping + [Entry(c, best)],
                             currentSize, currentDictSize))
  {
    var c := KeyOf(i);
    var mapping := st.mapping + [Entry(c, best)];
    var data := Replace(st.data, [best.first, best.second], [c]);
    ReplaceInverse(st.data, best.first, best.second, c);
    ReverseBpeAppend(data, st.mapping, Entry(c, best));
    ReplaceChars(st.data, best.first, best.second, c);
    assert FreeFrom(data, i + 1) by {
      forall j | 0 <= j < |data|
        ensures !(256 + i + 1 <= data[j] as int < 256 + MaxRounds)
      {
        assert data[j] in data;
      }
    }
    assert KeysInOrder(mapping);
  }

  lemma RoundStepUndoes(original: string, st: Round, initialSize: nat, sizeOf: nat -> int, i: nat)
    requires i < MaxRounds && |st.mapping| == i && Undoes(original, st)
    ensures match RoundStep(st, initialSize, sizeOf, i)
      case Done(data, mapping) => Undoes(original, Round(data, mapping, 0, 0))
      case Next(next) => Undoes(original, next)
  {
    var ps := Pairs(st.data);
    var (counts, uniquePairs, _) := GetPairs(st.data);
    if ps != [] && !uniquePairs {
      var best := Leader(ps, counts);
      if 100 * counts[best] >= initialSize {
        var c := KeyOf(i);
        var data := Replace(st.data, [best.first, best.second], [c]);
        MergeUndoes(original, st, best, i, 0, 0);
        MergeUndoes(original, st, best, i, |data|, sizeOf(i + 1));
      }
    }
  }

  lemma {:induction false} BpeFromUndoes(original: string, st: Round, initialSize: nat, sizeOf: nat -> int, i: nat)
    requires i <= MaxRounds && |st.mapping| == i && Undoes(original, st)
    ensures ReverseBpe(BpeFrom(st, initialSize, sizeOf, i).0, AsMap(BpeFrom(st, initialSize, sizeOf, i).1)) == original
    decreases MaxRounds - i
  {
    if i < MaxRounds {
      RoundStepUndoes(original, st, initialSize, sizeOf, i);
      match RoundStep(st, initialSize, sizeOf, i)
      case Done(_, _) =>
      case Next(next) =>
        RoundStepMerges(st, initialSize, sizeOf, i);
        BpeFromUndoes(original, next, initialSize, sizeOf, i + 1);
    }
  }

  /** `reverse_bpe` recovers the input of `byte_pair_encoding`, for any input without the characters
      `chr(256)` .. `chr(265)` it uses as keys. */
  lemma RoundTrip(data: string, sizeOf: nat -> int)
    requires FreeFrom(data, 0)
    ensures ReverseBpe(Bpe(data, sizeOf).0, AsMap(Bpe(data, sizeOf).1)) == data
  {
    assert AsMap([]) == [];
    BpeFromUndoes(data, Round(data, [], |data|, 0), |data|, sizeOf, 0);
  }
}
