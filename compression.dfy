/** GUI/COMPRESSION.py: `byte_pair_encoding` merges the most frequent pair of adjacent characters
    into a fresh character `chr(256)`, `chr(257)`, ... for at most ten rounds, and records each
    merge in an ordered mapping. */
module Compression {
  import opened PyStr

  /** A pair of adjacent characters, the key type of the `Counter`. */
  datatype Pair = Pair(first: char, second: char)

  /** One `mapping[new_char] = most_frequent` entry. */
  datatype Entry = Entry(key: char, pair: Pair)

  /** `for i in range(0, 10)`. */
  const MaxRounds: nat := 10

  /** `chr(len(mapping) + 256)` for a mapping of `k` entries. */
  function KeyOf(k: nat): (c: char)
    requires k <= MaxRounds
    ensures c as int == 256 + k
  {
    (256 + k) as char
  }

  /** `zip(data, data[1:])`: every adjacent pair, overlapping ones included, left to right. */
  function Pairs(data: string): seq<Pair>
  {
    if |data| < 2 then [] else seq(|data| - 1, i requires 0 <= i < |data| - 1 => Pair(data[i], data[i + 1]))
  }

  /** `get_pairs(data)`: the pair counts, whether all pairs are distinct (`len(pairs) == len(data) - 1`)
      and the number of distinct pairs. */
  function GetPairs(data: string): (r: (multiset<Pair>, bool, nat))
    ensures r.0 == multiset(Pairs(data))
    ensures r.1 <==> |data| >= 1 && Distinct(Pairs(data))
    ensures r.2 <= |Pairs(data)|
  {
    var ps := Pairs(data);
    var distinctPairs := set p | p in ps;
    SetOfSize(ps);
    (multiset(ps), |distinctPairs| == |data| - 1, |distinctPairs|)
  }

  /** `max(pairs, key=pairs.get)`: the pair with the highest count in `m`, the one met first in `ps`
      among equals (the `Counter` lists its keys in order of first appearance, and `max` keeps the
      first maximum). */
  function Leader(ps: seq<Pair>, m: multiset<Pair>): (r: Pair)
    requires ps != []
    ensures r in ps
  {
    if |ps| == 1 then ps[0]
    else
      var best := Leader(ps[..|ps| - 1], m);
      var last := ps[|ps| - 1];
      if m[last] > m[best] then last else best
  }

  /** The variables carried from one round to the next. */
  datatype Round = Round(data: string, mapping: seq<Entry>, currentSize: int, currentDictSize: int)

  /** How a round ends: a `break` with the final data and mapping, or the next round's variables. */
  datatype Outcome = Done(data: string, mapping: seq<Entry>) | Next(round: Round)

  /** Round `i` of the loop. `sizeOf(n)` stands for `sys.getsizeof(mapping)` when the mapping holds
      `n` entries. The thresholds `x < initial_size / 100` are compared as `100 * x < initial_size`. */
  function RoundStep(st: Round, initialSize: nat, sizeOf: nat -> int, i: nat): Outcome
    requires i < MaxRounds && |st.mapping| == i
  {
    var ps := Pairs(st.data);
    var (counts, uniquePairs, _) := GetPairs(st.data);
    if ps == [] || uniquePairs then Done(st.data, st.mapping)
    else
      var best := Leader(ps, counts);
      if 100 * counts[best] < initialSize then Done(st.data, st.mapping)
      else
        var mapping := st.mapping + [Entry(KeyOf(i), best)];
        var data := Replace(st.data, [best.first, best.second], [KeyOf(i)]);
        if 100 * (st.currentSize - |data| - (sizeOf(|mapping|) - st.currentDictSize)) < initialSize then
          Done(data, mapping)
        else
          Next(Round(data, mapping, |data|, sizeOf(|mapping|)))
  }

  /** The loop from round `i` on. */
  function BpeFrom(st: Round, initialSize: nat, sizeOf: nat -> int, i: nat): (string, seq<Entry>)
    requires i <= MaxRounds && |st.mapping| == i
    decreases MaxRounds - i
  {
    if i == MaxRounds then (st.data, st.mapping)
    else
      match RoundStep(st, initialSize, sizeOf, i)
      case Done(data, mapping) => (data, mapping)
      case Next(next) =>
        RoundStepMerges(st, initialSize, sizeOf, i);
        BpeFrom(next, initialSize, sizeOf, i + 1)
  }

  /** `byte_pair_encoding(data)`: the encoded data and the mapping in insertion order. */
  function Bpe(data: string, sizeOf: nat -> int): (string, seq<Entry>)
  {
    BpeFrom(Round(data, [], |data|, 0), |data|, sizeOf, 0)
  }

  /** `byte_pair_encoding(data)`, round by round. */
  method BytePairEncoding(data: string, sizeOf: nat -> int) returns (encoded: string, mapping: seq<Entry>)
    ensures (encoded, mapping) == Bpe(data, sizeOf)
  {
    mapping := [];
    var initialSize := |data|;
    var currentDictSize := 0;
    var currentSize := |data|;
    encoded := data;
    for i := 0 to MaxRounds
      invariant |mapping| == i
      invariant BpeFrom(Round(encoded, mapping, currentSize, currentDictSize), initialSize, sizeOf, i)
             == Bpe(data, sizeOf)
    {
      var (pairs, uniquePairs, numberOfPairs) := GetPairs(encoded);
      if Pairs(encoded) == [] || uniquePairs {
        return;
      }
      var mostFrequent := Leader(Pairs(encoded), pairs);
      var mostFrequentValue := pairs[mostFrequent];
      if 100 * mostFrequentValue < initialSize {
        return;
      }
      var newChar := KeyOf(|mapping|);
      mapping := mapping + [Entry(newChar, mostFrequent)];
      encoded := Replace(encoded, [mostFrequent.first, mostFrequent.second], [newChar]);
      if 100 * (currentSize - |encoded| - (sizeOf(|mapping|) - currentDictSize)) < initialSize {
        return;
      } else {
        currentDictSize := sizeOf(|mapping|);
        currentSize := |encoded|;
      }
    }
  }

  // ---------------------------------------------------------------------------------------------
  // Properties

  /** The set of a sequence has as many elements as the sequence exactly when nothing repeats. */
  lemma {:induction false} SetOfSize<T>(s: seq<T>)
    ensures |set x | x in s| <= |s|
    ensures |set x | x in s| == |s| <==> Distinct(s)
  {
    if s != [] {
      var front := s[..|s| - 1];
      var last := s[|s| - 1];
      SetOfSize(front);
      assert (set x | x in s) == (set x | x in front) + {last};
      if last in front {
        var j :| 0 <= j < |front| && front[j] == last;
        assert s[j] == s[|s| - 1];
      } else {
        assert Distinct(s) <==> Distinct(front) by {
          if Distinct(front) {
            forall i, j | 0 <= i < j < |s|
              ensures s[i] != s[j]
            {
              if j < |front| {
                assert s[i] == front[i] && s[j] == front[j];
              } else {
                assert s[i] == front[i];
              }
            }
          }
        }
      }
    }
  }

  /** The chosen pair has the highest count, and every pair met before it in `ps` has a strictly
      lower count: ties go to the first appearance. */
  lemma {:induction false} LeaderFirstMax(ps: seq<Pair>, m: multiset<Pair>)
    requires ps != []
    ensures forall q :: q in ps ==> m[q] <= m[Leader(ps, m)]
    ensures forall i :: 0 <= i < Position(ps, Leader(ps, m)) ==> m[ps[i]] < m[Leader(ps, m)]
  {
    if |ps| > 1 {
      var front := ps[..|ps| - 1];
      var last := ps[|ps| - 1];
      LeaderFirstMax(front, m);
      var best := Leader(front, m);
      assert ps == front + [last];
      if m[last] > m[best] {
        assert last !in front;
        PositionLast(front, last);
      } else {
        PositionPrefix(front, last, best);
      }
    }
  }

  /** Replacing a two-character pattern by one character never makes a string longer. */
  lemma {:induction false} ReplaceShorter(s: string, a: char, b: char, c: char)
    ensures |Replace(s, [a, b], [c])| <= |s|
    decreases |s|
  {
    if s != [] {
      if StartsWith(s, [a, b]) {
        ReplaceShorter(s[2..], a, b, c);
      } else {
        ReplaceShorter(s[1..], a, b, c);
      }
    }
  }

  /** Every character of the result is the new character or a character of `s`. */
  lemma {:induction false} ReplaceChars(s: string, a: char, b: char, c: char)
    ensures forall x :: x in Replace(s, [a, b], [c]) ==> x == c || x in s
    decreases |s|
  {
    if s != [] {
      if StartsWith(s, [a, b]) {
        ReplaceChars(s[2..], a, b, c);
        assert forall x :: x in s[2..] ==> x in s;
      } else {
        ReplaceChars(s[1..], a, b, c);
        assert forall x :: x in s[1..] ==> x in s;
      }
    }
  }

  /** The invariant of the rounds: the keys so far are `chr(256)`, `chr(257)`, ... in order. */
  ghost predicate KeysInOrder(mapping: seq<Entry>)
  {
    |mapping| <= MaxRounds && forall k :: 0 <= k < |mapping| ==> mapping[k].key == KeyOf(k)
  }

  /** A round that does not break has merged once: one more entry, under the next key. */
  lemma RoundStepMerges(st: Round, initialSize: nat, sizeOf: nat -> int, i: nat)
    requires i < MaxRounds && |st.mapping| == i
    ensures var o := RoundStep(st, initialSize, sizeOf, i);
      o.Next? ==> o.round.mapping == st.mapping + [Entry(KeyOf(i), o.round.mapping[i].pair)]
  {
  }

  /** One round keeps the keys in order, only appends to the mapping, and never lengthens the data. */
  lemma RoundStepShape(st: Round, initialSize: nat, sizeOf: nat -> int, i: nat)
    requires i < MaxRounds && |st.mapping| == i && KeysInOrder(st.mapping)
    ensures match RoundStep(st, initialSize, sizeOf, i)
      case Done(data, mapping) => KeysInOrder(mapping) && st.mapping <= mapping && |data| <= |st.data|
      case Next(next) => KeysInOrder(next.mapping) && st.mapping <= next.mapping && |next.data| <= |st.data|
  {
    var ps := Pairs(st.data);
    var (counts, uniquePairs, _) := GetPairs(st.data);
    if ps != [] && !uniquePairs {
      var best := Leader(ps, counts);
      ReplaceShorter(st.data, best.first, best.second, KeyOf(i));
      var mapping := st.mapping + [Entry(KeyOf(i), best)];
      assert KeysInOrder(mapping);
    }
  }

  lemma {:induction false} BpeFromShape(st: Round, initialSize: nat, sizeOf: nat -> int, i: nat)
    requires i <= MaxRounds && |st.mapping| == i && KeysInOrder(st.mapping)
    ensures KeysInOrder(BpeFrom(st, initialSize, sizeOf, i).1)
    ensures st.mapping <= BpeFrom(st, initialSize, sizeOf, i).1
    ensures |BpeFrom(st, initialSize, sizeOf, i).0| <= |st.data|
    decreases MaxRounds - i
  {
    if i < MaxRounds {
      RoundStepShape(st, initialSize, sizeOf, i);
      match RoundStep(st, initialSize, sizeOf, i)
      case Done(_, _) =>
      case Next(next) =>
        RoundStepMerges(st, initialSize, sizeOf, i);
        BpeFromShape(next, initialSize, sizeOf, i + 1);
    }
  }

  /** The encoding is never longer than the input, the mapping has at most ten entries, and its
      keys are `chr(256)`, `chr(257)`, ... in insertion order. */
  lemma BpeShape(data: string, sizeOf: nat -> int)
    ensures |Bpe(data, sizeOf).0| <= |data|
    ensures |Bpe(data, sizeOf).1| <= MaxRounds
    ensures forall k :: 0 <= k < |Bpe(data, sizeOf).1| ==> Bpe(data, sizeOf).1[k].key as int == 256 + k
  {
    BpeFromShape(Round(data, [], |data|, 0), |data|, sizeOf, 0);
  }

  /** Nothing is merged when no pair repeats: fewer than two characters, or all pairs distinct. */
  lemma NoRepeatNoMerge(data: string, sizeOf: nat -> int)
    requires Distinct(Pairs(data))
    ensures Bpe(data, sizeOf) == (data, [])
  {
  }

  /** Nothing is merged when the most frequent pair occurs in less than 1% of the input length. */
  lemma RareNoMerge(data: string, sizeOf: nat -> int)
    requires forall p :: p in Pairs(data) ==> 100 * multiset(Pairs(data))[p] < |data|
    ensures Bpe(data, sizeOf) == (data, [])
  {
    var ps := Pairs(data);
    if ps != [] {
      var best := Leader(ps, multiset(ps));
      assert best in ps;
    }
  }

  /** When a pair repeats often enough, the first round merges it and keeps its mapping entry,
      whatever the size check decides next: the entry is `chr(256)` for the most frequent pair. */
  lemma FirstMergeKept(data: string, sizeOf: nat -> int)
    requires !Distinct(Pairs(data))
    requires exists p :: p in Pairs(data) && 100 * multiset(Pairs(data))[p] >= |data|
    ensures |Bpe(data, sizeOf).1| >= 1
    ensures Bpe(data, sizeOf).1[0] == Entry(KeyOf(0), Leader(Pairs(data), multiset(Pairs(data))))
  {
    var ps := Pairs(data);
    var p :| p in ps && 100 * multiset(ps)[p] >= |data|;
    LeaderFirstMax(ps, multiset(ps));
    var st := Round(data, [], |data|, 0);
    var best := Leader(ps, multiset(ps));
    var o := RoundStep(st, |data|, sizeOf, 0);
    assert o.Done? ==> o.mapping == [Entry(KeyOf(0), best)];
    assert o.Next? ==> o.round.mapping == [Entry(KeyOf(0), best)];
    if o.Next? {
      assert KeysInOrder(o.round.mapping);
      BpeFromShape(o.round, |data|, sizeOf, 1);
    }
  }
}
