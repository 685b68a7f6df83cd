/** The parser of GUI/json_utils.py: `handle_multiple_siblings`,
    `replace_empty_dict_with_text`, `assign_text_to_most_recent_sibling` and `parse`.

    `parse` keeps a stack of dicts that are at the same time values inside other dicts, and the
    helpers change those dicts (and the sibling lists inside them) in place. The model makes the
    aliasing explicit: every dict and list `parse` creates lives in a store of objects, indexed by
    its identity, and a value inside a dict or a list is either a string or a reference into that
    store. */
module JsonParse {
  import opened Common
  import opened PyStr
  import opened JsonTokens
  import opened JsonDumps

  /** A value held by a dict or a list: a reference to another object, or a string. */
  datatype Val = Ref(id: nat) | Text(text: string)

  /** A Python dict (its keys in insertion order) or list. */
  datatype PyObj = Dict(keys: seq<string>, vals: map<string, Val>) | List(items: seq<Val>)

  /** `d[k] = v`: an existing key keeps its place, a new key goes last. */
  function Put(o: PyObj, k: string, v: Val): (r: PyObj)
    requires o.Dict?
    ensures r.Dict? && r.vals == o.vals[k := v]
    ensures k in o.vals ==> r.keys == o.keys
    ensures k !in o.vals ==> r.keys == o.keys + [k]
  {
    if k in o.vals then Dict(o.keys, o.vals[k := v]) else Dict(o.keys + [k], o.vals[k := v])
  }

  predicate IsDictAt(heap: seq<PyObj>, i: nat)
  {
    i < |heap| && heap[i].Dict?
  }

  /** `isinstance(v, list)`. */
  predicate IsListRef(heap: seq<PyObj>, v: Val)
  {
    v.Ref? && v.id < |heap| && heap[v.id].List?
  }

  /** `isinstance(v, dict) and not v`. */
  predicate IsEmptyDictRef(heap: seq<PyObj>, v: Val)
  {
    v.Ref? && v.id < |heap| && heap[v.id].Dict? && heap[v.id].vals == map[]
  }

  // ---------------------------------------------------------------------------------------------
  // The three helpers, as functions of the store

  /** The store after `handle_multiple_siblings`: the new element is stored under `tag` in the
      dict `top`; a second occurrence turns the entry into a new two-element list, a later one is
      appended to that list. */
  function SiblingAdded(heap: seq<PyObj>, top: nat, tag: string, newElement: nat): seq<PyObj>
    requires IsDictAt(heap, top)
  {
    var d := heap[top];
    if tag in d.vals then
      var v := d.vals[tag];
      if IsListRef(heap, v) then heap[v.id := List(heap[v.id].items + [Ref(newElement)])]
      else heap[top := Put(d, tag, Ref(|heap|))] + [List([v, Ref(newElement)])]
    else heap[top := Put(d, tag, Ref(newElement))]
  }

  /** The store after `replace_empty_dict_with_text`: the entry `tag` of the dict `parent` becomes
      the text when it is an empty dict. */
  function EmptyDictReplaced(heap: seq<PyObj>, parent: nat, tag: string, text: string): seq<PyObj>
    requires IsDictAt(heap, parent) && tag in heap[parent].vals
  {
    if IsEmptyDictRef(heap, heap[parent].vals[tag]) then heap[parent := Put(heap[parent], tag, Text(text))]
    else heap
  }

  /** The store after `assign_text_to_most_recent_sibling`: when the entry `tag` of `parent` is a
      list, its last element becomes the text. */
  function RecentSiblingAssigned(heap: seq<PyObj>, parent: nat, tag: string, text: string): seq<PyObj>
    requires IsDictAt(heap, parent) && tag in heap[parent].vals
    requires forall i :: 0 <= i < |heap| && heap[i].List? ==> |heap[i].items| > 0
  {
    var v := heap[parent].vals[tag];
    if IsListRef(heap, v) then
      var items := heap[v.id].items;
      heap[v.id := List(items[|items| - 1 := Text(text)])]
    else heap
  }

  /** The elements stored under `tag` in the dict `d`, in order: none, the one value, or the items
      of the sibling list. */
  function Siblings(heap: seq<PyObj>, d: nat, tag: string): seq<Val>
    requires IsDictAt(heap, d)
  {
    if tag !in heap[d].vals then []
    else
      var v := heap[d].vals[tag];
      if IsListRef(heap, v) then heap[v.id].items else [v]
  }

  /** `handle_multiple_siblings` appends the new element to the siblings stored under `tag`;
      the first occurrence stores it alone. Every other object keeps its contents, and so does
      every other entry of `top`. */
  lemma SiblingAppended(heap: seq<PyObj>, top: nat, tag: string, newElement: nat)
    requires IsDictAt(heap, top) && IsDictAt(heap, newElement)
    ensures var r := SiblingAdded(heap, top, tag, newElement);
      IsDictAt(r, top)
      && Siblings(r, top, tag) == Siblings(heap, top, tag) + [Ref(newElement)]
      && (forall k :: k != tag && k in heap[top].vals ==> k in r[top].vals && r[top].vals[k] == heap[top].vals[k])
      && forall i :: 0 <= i < |heap| && i != top && !(tag in heap[top].vals && heap[top].vals[tag] == Ref(i)) ==> r[i] == heap[i]
  {
  }

  /** The text step of `parse` (`replace_empty_dict_with_text`, then
      `assign_text_to_most_recent_sibling`): the last sibling becomes the text when the siblings
      are a list; a lone element becomes the text when it is an empty dict; otherwise nothing
      changes. */
  lemma TextStored(heap: seq<PyObj>, parent: nat, tag: string, text: string)
    requires IsDictAt(heap, parent) && tag in heap[parent].vals
    requires forall i :: 0 <= i < |heap| && heap[i].List? ==> |heap[i].items| > 0
    ensures var h := EmptyDictReplaced(heap, parent, tag, text);
      var s, v := Siblings(heap, parent, tag), heap[parent].vals[tag];
      IsDictAt(h, parent) && tag in h[parent].vals
      && (forall i :: 0 <= i < |h| && h[i].List? ==> |h[i].items| > 0)
      && var r := RecentSiblingAssigned(h, parent, tag, text);
      IsDictAt(r, parent)
      && Siblings(r, parent, tag) == (if IsListRef(heap, v) then s[..|s| - 1] + [Text(text)]
                                      else if IsEmptyDictRef(heap, v) then [Text(text)] else s)
  {
  }

  // ---------------------------------------------------------------------------------------------
  // The store's invariant

  /** A dict lists each of its keys exactly once; a list is never empty. */
  predicate ObjectFormed(o: PyObj)
  {
    match o
    case Dict(keys, vals) =>
      (forall i :: 0 <= i < |keys| ==> keys[i] in vals)
      && (forall k :: k in vals ==> k in keys)
      && (forall i, j :: 0 <= i < j < |keys| ==> keys[i] != keys[j])
    case List(items) => |items| > 0
  }

  /** A value held by the dict `d` points forward: to a dict created after `d`, or to a list whose
      elements are texts or dicts created after `d`. This is what makes the store a tree below
      the root. */
  predicate RankedVal(heap: seq<PyObj>, d: nat, v: Val)
  {
    v.Text? || (d < v.id < |heap| && (heap[v.id].Dict? || forall i :: 0 <= i < |heap[v.id].items| ==> RankedItem(heap, d, heap[v.id].items[i])))
  }

  predicate RankedItem(heap: seq<PyObj>, d: nat, v: Val)
  {
    v.Text? || (d < v.id < |heap| && heap[v.id].Dict?)
  }

  ghost predicate HeapFormed(heap: seq<PyObj>)
  {
    (forall i :: 0 <= i < |heap| ==> ObjectFormed(heap[i]))
    && forall d, k :: 0 <= d < |heap| && heap[d].Dict? && k in heap[d].vals ==> RankedVal(heap, d, heap[d].vals[k])
  }

  /** `parse`'s variables between two tokens: the store, `stack` (the identities of the open dicts,
      the root first) and `tag_stack`. */
  datatype ParseState = ParseState(heap: seq<PyObj>, stack: seq<nat>, tagStack: seq<string>)

  /** The state between two tokens: one more dict on `stack` than names on `tag_stack`, the root
      at the bottom, and each open tag's name a key of the dict below it. */
  ghost predicate Valid(st: ParseState)
  {
    HeapFormed(st.heap)
    && |st.stack| == |st.tagStack| + 1 && st.stack[0] == 0
    && (forall i :: 0 <= i < |st.stack| ==> IsDictAt(st.heap, st.stack[i]))
    && forall i :: 0 <= i < |st.tagStack| ==> st.tagStack[i] in st.heap[st.stack[i]].vals
  }

  /** `stack = [{}]` and `tag_stack = []`. */
  function Init(): (st: ParseState)
    ensures Valid(st)
  {
    ParseState([Dict([], map[])], [0], [])
  }

  /** A store that grew from `heap`: every dict is still a dict with at least its keys. */
  ghost predicate Grown(heap: seq<PyObj>, heap': seq<PyObj>)
  {
    |heap| <= |heap'|
    && forall i :: 0 <= i < |heap| && heap[i].Dict? ==> heap'[i].Dict? && heap[i].vals.Keys <= heap'[i].vals.Keys
  }

  lemma SiblingAddedFormed(heap: seq<PyObj>, top: nat, tag: string, n: nat)
    requires HeapFormed(heap) && IsDictAt(heap, top) && n == |heap| - 1 && top < n && heap[n] == Dict([], map[])
    ensures var r := SiblingAdded(heap, top, tag, n);
      HeapFormed(r) && Grown(heap, r) && tag in r[top].vals
  {
    var d := heap[top];
    var r := SiblingAdded(heap, top, tag, n);
    if tag in d.vals && IsListRef(heap, d.vals[tag]) {
      AppendFormed(heap, d.vals[tag].id, n);
    } else if tag in d.vals {
      PairFormed(heap, top, tag, n);
    } else {
      PutFormed(heap, top, tag, Ref(n));
    }
  }

  /** Appending the newest dict to a list keeps the store formed. */
  lemma AppendFormed(heap: seq<PyObj>, l: nat, n: nat)
    requires HeapFormed(heap) && l < |heap| && heap[l].List? && n == |heap| - 1 && heap[n] == Dict([], map[])
    ensures var r := heap[l := List(heap[l].items + [Ref(n)])]; HeapFormed(r) && Grown(heap, r)
  {
    var r := heap[l := List(heap[l].items + [Ref(n)])];
    forall d, k | 0 <= d < |r| && r[d].Dict? && k in r[d].vals ensures RankedVal(r, d, r[d].vals[k]) {
      var v := r[d].vals[k];
      assert d != n && d != l && r[d] == heap[d];
      assert RankedVal(heap, d, v);
      if v.Ref? && v.id == l {
        forall i | 0 <= i < |r[l].items| ensures RankedItem(r, d, r[l].items[i]) {
          if i < |heap[l].items| {
            assert r[l].items[i] == heap[l].items[i];
          }
        }
      } else if v.Ref? && heap[v.id].List? {
        assert r[v.id] == heap[v.id];
        forall i | 0 <= i < |r[v.id].items| ensures RankedItem(r, d, r[v.id].items[i]) {
          assert RankedItem(heap, d, heap[v.id].items[i]);
        }
      }
    }
  }

  /** Storing a value that points forward (or a text) under a key of a dict keeps the store
      formed. */
  lemma PutFormed(heap: seq<PyObj>, top: nat, tag: string, v: Val)
    requires HeapFormed(heap) && IsDictAt(heap, top) && RankedVal(heap, top, v)
    ensures var r := heap[top := Put(heap[top], tag, v)]; HeapFormed(r) && Grown(heap, r)
  {
    var r := heap[top := Put(heap[top], tag, v)];
    assert ObjectFormed(r[top]) by {
      var o := r[top];
      if tag !in heap[top].vals {
        forall i, j | 0 <= i < j < |o.keys| ensures o.keys[i] != o.keys[j] {
          if j == |o.keys| - 1 {
            assert o.keys[i] == heap[top].keys[i] && o.keys[i] in heap[top].vals;
          }
        }
      }
    }
    forall d, k | 0 <= d < |r| && r[d].Dict? && k in r[d].vals ensures RankedVal(r, d, r[d].vals[k]) {
      var w := r[d].vals[k];
      assert RankedVal(heap, d, w);
      if w.Ref? && heap[w.id].List? {
        assert r[w.id] == heap[w.id];
        forall i | 0 <= i < |r[w.id].items| ensures RankedItem(r, d, r[w.id].items[i]) {
          assert RankedItem(heap, d, heap[w.id].items[i]);
        }
      }
    }
  }

  /** The second occurrence of a tag: the entry becomes a new list of the old value and the
      newest dict. */
  lemma PairFormed(heap: seq<PyObj>, top: nat, tag: string, n: nat)
    requires HeapFormed(heap) && IsDictAt(heap, top) && n == |heap| - 1 && top < n && heap[n] == Dict([], map[])
    requires tag in heap[top].vals && !IsListRef(heap, heap[top].vals[tag])
    ensures var r := heap[top := Put(heap[top], tag, Ref(|heap|))] + [List([heap[top].vals[tag], Ref(n)])];
      HeapFormed(r) && Grown(heap, r)
  {
    var old_ := heap[top].vals[tag];
    var big := heap + [List([old_, Ref(n)])];
    assert RankedItem(big, top, old_) by {
      assert RankedVal(heap, top, old_);
    }
    assert HeapFormed(big) by {
      forall d, k | 0 <= d < |big| && big[d].Dict? && k in big[d].vals ensures RankedVal(big, d, big[d].vals[k]) {
        var w := big[d].vals[k];
        assert d < |heap| && big[d] == heap[d];
        assert RankedVal(heap, d, w);
        if w.Ref? && heap[w.id].List? {
          forall i | 0 <= i < |big[w.id].items| ensures RankedItem(big, d, big[w.id].items[i]) {
            assert RankedItem(heap, d, heap[w.id].items[i]);
          }
        }
      }
    }
    assert RankedVal(big, top, Ref(|heap|)) by {
      assert big[|heap|].items == [old_, Ref(n)];
    }
    PutFormed(big, top, tag, Ref(|heap|));
    assert big[top := Put(big[top], tag, Ref(|heap|))] == heap[top := Put(heap[top], tag, Ref(|heap|))] + [List([old_, Ref(n)])];
  }

  // ---------------------------------------------------------------------------------------------
  // One token

  /** The loop body of `parse` for one token: a start tag stores a new empty dict under its name
      and pushes it on both stacks; an end tag pops both stacks whatever its name; a text that is
      not blank is stored for the innermost open tag; anything else (a self-closing tag) is
      ignored. Python's `IndexError`s come back as `Err`. */
  function Step(st: ParseState, token: string): Result<ParseState>
    requires Valid(st)
  {
    if IsStartTag(token) then
      match GetTagName(token)
      case Err(e) => Err(e)
      case Ok(tagName) => StartStep(st, tagName)
    else if IsEndTag(token) then
      if st.tagStack == [] then Err("IndexError: pop from empty list")
      else Ok(ParseState(st.heap, st.stack[..|st.stack| - 1], st.tagStack[..|st.tagStack| - 1]))
    else if IsText(token) && GetTextValue(token) != [] then
      if st.tagStack == [] then Err("IndexError: list index out of range")
      else Ok(TextStep(st, GetTextValue(token)))
    else Ok(st)
  }

  /** A start tag named `tagName`. */
  function StartStep(st: ParseState, tagName: string): Result<ParseState>
    requires Valid(st)
  {
    var newElement := |st.heap|;
    var heap := st.heap + [Dict([], map[])];
    var top := st.stack[|st.stack| - 1];
    Ok(ParseState(SiblingAdded(heap, top, tagName, newElement), st.stack + [newElement], st.tagStack + [tagName]))
  }

  /** A non-blank text for the innermost open tag. */
  function TextStep(st: ParseState, textValue: string): ParseState
    requires Valid(st) && st.tagStack != []
  {
    var currentTag := st.tagStack[|st.tagStack| - 1];
    var parent := st.stack[|st.stack| - 2];
    assert currentTag in st.heap[parent].vals;
    var h := EmptyDictReplaced(st.heap, parent, currentTag, textValue);
    EmptyDictReplacedFormed(st.heap, parent, currentTag, textValue);
    ParseState(RecentSiblingAssigned(h, parent, currentTag, textValue), st.stack, st.tagStack)
  }

  /** Every step that raises nothing keeps the state valid: the store stays a tree of formed
      dicts and lists below the root, and every open tag is a key of the dict below it. */
  lemma StepValid(st: ParseState, token: string)
    requires Valid(st)
    ensures Step(st, token).Ok? ==> Valid(Step(st, token).value)
  {
    if IsStartTag(token) && GetTagName(token).Ok? {
      StartValid(st, GetTagName(token).value);
    } else if !IsEndTag(token) && IsText(token) && GetTextValue(token) != [] && st.tagStack != [] {
      TextValid(st, GetTextValue(token));
    }
  }

  lemma StartValid(st: ParseState, tagName: string)
    requires Valid(st)
    ensures StartStep(st, tagName).Ok? && Valid(StartStep(st, tagName).value)
  {
    var top := st.stack[|st.stack| - 1];
    NewSiblingFormed(st.heap, top, tagName);
    PushValid(st, SiblingAdded(st.heap + [Dict([], map[])], top, tagName, |st.heap|), |st.heap|, tagName);
  }

  lemma TextValid(st: ParseState, textValue: string)
    requires Valid(st) && st.tagStack != []
    ensures Valid(TextStep(st, textValue))
  {
    var currentTag := st.tagStack[|st.tagStack| - 1];
    var parent := st.stack[|st.stack| - 2];
    assert currentTag in st.heap[parent].vals;
    var h := EmptyDictReplaced(st.heap, parent, currentTag, textValue);
    EmptyDictReplacedFormed(st.heap, parent, currentTag, textValue);
    RecentSiblingAssignedFormed(h, parent, currentTag, textValue);
    GrownValid(st, RecentSiblingAssigned(h, parent, currentTag, textValue));
  }

  /** A new empty dict at the end keeps the store formed. */
  lemma NewDictFormed(heap: seq<PyObj>)
    requires HeapFormed(heap)
    ensures HeapFormed(heap + [Dict([], map[])]) && Grown(heap, heap + [Dict([], map[])])
  {
    var big := heap + [Dict([], map[])];
    forall d, k | 0 <= d < |big| && big[d].Dict? && k in big[d].vals ensures RankedVal(big, d, big[d].vals[k]) {
      var w := big[d].vals[k];
      assert d < |heap| && big[d] == heap[d];
      assert RankedVal(heap, d, w);
      if w.Ref? && heap[w.id].List? {
        forall i | 0 <= i < |big[w.id].items| ensures RankedItem(big, d, big[w.id].items[i]) {
          assert RankedItem(heap, d, heap[w.id].items[i]);
        }
      }
    }
  }

  /** Storing a new empty dict under `tag` in the dict `top` keeps the store formed. */
  lemma NewSiblingFormed(heap: seq<PyObj>, top: nat, tag: string)
    requires HeapFormed(heap) && IsDictAt(heap, top)
    ensures var r := SiblingAdded(heap + [Dict([], map[])], top, tag, |heap|);
      HeapFormed(r) && Grown(heap, r) && IsDictAt(r, |heap|) && tag in r[top].vals
  {
    var big := heap + [Dict([], map[])];
    NewDictFormed(heap);
    SiblingAddedFormed(big, top, tag, |heap|);
    var r := SiblingAdded(big, top, tag, |heap|);
    assert Grown(big, r);
    assert IsDictAt(r, |heap|) by {
      assert big[|heap|].Dict?;
    }
    forall i | 0 <= i < |heap| && heap[i].Dict? ensures r[i].Dict? && heap[i].vals.Keys <= r[i].vals.Keys {
      assert big[i] == heap[i];
    }
  }

  /** A formed store grown from the one of a valid state keeps the state valid. */
  lemma GrownValid(st: ParseState, heap': seq<PyObj>)
    requires Valid(st) && HeapFormed(heap') && Grown(st.heap, heap')
    ensures Valid(ParseState(heap', st.stack, st.tagStack))
  {
    forall i | 0 <= i < |st.tagStack| ensures st.tagStack[i] in heap'[st.stack[i]].vals {
      assert st.tagStack[i] in st.heap[st.stack[i]].vals;
    }
  }

  /** Pushing a dict of the grown store, stored under `tagName` in the dict on top, keeps the
      state valid. */
  lemma PushValid(st: ParseState, heap': seq<PyObj>, newElement: nat, tagName: string)
    requires Valid(st) && HeapFormed(heap') && Grown(st.heap, heap') && IsDictAt(heap', newElement)
    requires tagName in heap'[st.stack[|st.stack| - 1]].vals
    ensures Valid(ParseState(heap', st.stack + [newElement], st.tagStack + [tagName]))
  {
    GrownValid(st, heap');
  }

  lemma EmptyDictReplacedFormed(heap: seq<PyObj>, parent: nat, tag: string, text: string)
    requires HeapFormed(heap) && IsDictAt(heap, parent) && tag in heap[parent].vals
    ensures var r := EmptyDictReplaced(heap, parent, tag, text); HeapFormed(r) && Grown(heap, r)
  {
    if IsEmptyDictRef(heap, heap[parent].vals[tag]) {
      PutFormed(heap, parent, tag, Text(text));
    }
  }

  lemma RecentSiblingAssignedFormed(heap: seq<PyObj>, parent: nat, tag: string, text: string)
    requires HeapFormed(heap) && IsDictAt(heap, parent) && tag in heap[parent].vals
    ensures forall i :: 0 <= i < |heap| && heap[i].List? ==> |heap[i].items| > 0
    ensures var r := RecentSiblingAssigned(heap, parent, tag, text); HeapFormed(r) && Grown(heap, r)
  {
    assert forall i :: 0 <= i < |heap| && heap[i].List? ==> |heap[i].items| > 0 by {
      forall i | 0 <= i < |heap| && heap[i].List? ensures |heap[i].items| > 0 {
        assert ObjectFormed(heap[i]);
      }
    }
    var v := heap[parent].vals[tag];
    if IsListRef(heap, v) {
      var l := v.id;
      var items := heap[l].items;
      var r := heap[l := List(items[|items| - 1 := Text(text)])];
      forall d, k | 0 <= d < |r| && r[d].Dict? && k in r[d].vals ensures RankedVal(r, d, r[d].vals[k]) {
        var w := r[d].vals[k];
        assert d != l && r[d] == heap[d];
        assert RankedVal(heap, d, w);
        if w.Ref? && heap[w.id].List? {
          forall i | 0 <= i < |r[w.id].items| ensures RankedItem(r, d, r[w.id].items[i]) {
            if w.id != l || i != |items| - 1 {
              assert r[w.id].items[i] == heap[w.id].items[i];
              assert RankedItem(heap, d, heap[w.id].items[i]);
            }
          }
        }
      }
    }
  }

  // ---------------------------------------------------------------------------------------------
  // The whole token list

  /** The state of `parse` after the first `n` tokens, or the error that stopped it. */
  function Run(tokens: seq<string>, n: nat): (r: Result<ParseState>)
    requires n <= |tokens|
    ensures r.Ok? ==> Valid(r.value)
  {
    if n == 0 then Ok(Init())
    else
      match Run(tokens, n - 1)
      case Err(e) => Err(e)
      case Ok(st) => StepValid(st, tokens[n - 1]); Step(st, tokens[n - 1])
  }

  /** One more token: the error stays, or the state takes one `Step`. */
  lemma RunNext(tokens: seq<string>, n: nat)
    requires 0 < n <= |tokens|
    ensures Run(tokens, n - 1).Err? ==> Run(tokens, n) == Run(tokens, n - 1)
    ensures Run(tokens, n - 1).Ok? ==> Run(tokens, n) == Step(Run(tokens, n - 1).value, tokens[n - 1])
  {
  }

  /** Once a token raises, `parse` raises that error. */
  lemma {:induction false} RunErrStays(tokens: seq<string>, i: nat, n: nat)
    requires i <= n <= |tokens|
    ensures Run(tokens, i).Err? ==> Run(tokens, n) == Run(tokens, i)
    decreases n - i
  {
    if i < n {
      RunErrStays(tokens, i, n - 1);
      RunNext(tokens, n);
    }
  }

  /** `parse(xml_input)`: the store once every token is consumed, whose object 0 is the root dict
      `stack[0]` that `parse` returns. */
  function ParseSpec(xml: string): (r: Result<seq<PyObj>>)
    ensures r.Ok? ==> HeapFormed(r.value) && IsDictAt(r.value, 0)
  {
    var tokens := Tokenize(xml);
    match Run(tokens, |tokens|)
    case Err(e) => Err(e)
    case Ok(st) => Ok(st.heap)
  }

  // ---------------------------------------------------------------------------------------------
  // The same, in place

  /** The dicts and lists `parse` creates; the helpers update them in place. */
  class Store {
    var objects: seq<PyObj>

    /** `stack = [{}]`: the store holds the root dict alone. */
    constructor ()
      ensures objects == Init().heap
    {
      objects := [Dict([], map[])];
    }

    /** `new_element = {}`. */
    method NewDict() returns (id: nat)
      modifies this
      ensures id == |old(objects)| && objects == old(objects) + [Dict([], map[])]
    {
      id := |objects|;
      objects := objects + [Dict([], map[])];
    }

    /** `handle_multiple_siblings(stack, current_tag, new_element)` with `stack[-1]` the dict
        `top`. */
    method HandleMultipleSiblings(top: nat, currentTag: string, newElement: nat)
      requires IsDictAt(objects, top)
      modifies this
      ensures objects == SiblingAdded(old(objects), top, currentTag, newElement)
    {
      var d := objects[top];
      if currentTag in d.vals {
        var v := d.vals[currentTag];
        if IsListRef(objects, v) {
          objects := objects[v.id := List(objects[v.id].items + [Ref(newElement)])];
        } else {
          var pair := |objects|;
          objects := objects + [List([v, Ref(newElement)])];
          objects := objects[top := Put(d, currentTag, Ref(pair))];
        }
      } else {
        objects := objects[top := Put(d, currentTag, Ref(newElement))];
      }
    }

    /** `replace_empty_dict_with_text(stack, current_tag, text_value)` with `stack[-2]` the dict
        `parent`. */
    method ReplaceEmptyDictWithText(parent: nat, currentTag: string, textValue: string)
      requires IsDictAt(objects, parent) && currentTag in objects[parent].vals
      modifies this
      ensures objects == EmptyDictReplaced(old(objects), parent, currentTag, textValue)
    {
      var v := objects[parent].vals[currentTag];
      if IsEmptyDictRef(objects, v) {
        objects := objects[parent := Put(objects[parent], currentTag, Text(textValue))];
      }
    }

    /** `assign_text_to_most_recent_sibling(stack, current_tag, text_value)` with `stack[-2]` the
        dict `parent`. */
    method AssignTextToMostRecentSibling(parent: nat, currentTag: string, textValue: string)
      requires IsDictAt(objects, parent) && currentTag in objects[parent].vals
      requires forall i :: 0 <= i < |objects| && objects[i].List? ==> |objects[i].items| > 0
      modifies this
      ensures objects == RecentSiblingAssigned(old(objects), parent, currentTag, textValue)
    {
      var v := objects[parent].vals[currentTag];
      if IsListRef(objects, v) {
        var items := objects[v.id].items;
        objects := objects[v.id := List(items[|items| - 1 := Text(textValue)])];
      }
    }
  }

  /** `parse(xml_input)`: the token loop over a store updated in place and the two stacks. */
  method Parse(xml: string) returns (r: Result<seq<PyObj>>)
    ensures r == ParseSpec(xml)
  {
    var tokens := Tokenize(xml);
    var store := new Store();
    var stack: seq<nat> := [0];
    var tagStack: seq<string> := [];
    var i := 0;
    while i < |tokens|
      invariant i <= |tokens|
      invariant Run(tokens, i) == Ok(ParseState(store.objects, stack, tagStack))
    {
      ghost var st := ParseState(store.objects, stack, tagStack);
      var next := ParseToken(store, stack, tagStack, tokens[i]);
      assert Run(tokens, i + 1) == Step(st, tokens[i]);
      if next.Err? {
        RunErrStays(tokens, i + 1, |tokens|);
        return Err(next.error);
      }
      stack, tagStack := next.value.0, next.value.1;
      i := i + 1;
    }
    r := Ok(store.objects);
  }

  /** The loop body of `parse` for one token, on the store in place: the new stacks, or the
      `IndexError` it raises. */
  method ParseToken(store: Store, stack: seq<nat>, tagStack: seq<string>, token: string)
      returns (r: Result<(seq<nat>, seq<string>)>)
    requires Valid(ParseState(store.objects, stack, tagStack))
    modifies store
    ensures var step := Step(ParseState(old(store.objects), stack, tagStack), token);
      match r
      case Err(e) => step == Err(e)
      case Ok((stack', tagStack')) => step == Ok(ParseState(store.objects, stack', tagStack'))
  {
    if IsStartTag(token) {
      var name := GetTagName(token);
      if name.Err? {
        return Err(name.error);
      }
      var stack', tagStack' := PushTag(store, stack, tagStack, name.value);
      r := Ok((stack', tagStack'));
    } else if IsEndTag(token) {
      if tagStack == [] {
        return Err("IndexError: pop from empty list");
      }
      r := Ok((stack[..|stack| - 1], tagStack[..|tagStack| - 1]));
    } else if IsText(token) {
      var textValue := GetTextValue(token);
      if textValue != [] {
        if tagStack == [] {
          return Err("IndexError: list index out of range");
        }
        StoreText(store, stack, tagStack, textValue);
      }
      r := Ok((stack, tagStack));
    } else {
      r := Ok((stack, tagStack));
    }
  }

  /** A start tag named `tagName`: a new dict stored in the dict on top and pushed, with its
      name, on the two stacks. */
  method PushTag(store: Store, stack: seq<nat>, tagStack: seq<string>, tagName: string)
      returns (stack': seq<nat>, tagStack': seq<string>)
    requires Valid(ParseState(store.objects, stack, tagStack))
    modifies store
    ensures StartStep(ParseState(old(store.objects), stack, tagStack), tagName)
      == Ok(ParseState(store.objects, stack', tagStack'))
  {
    var newElement := store.NewDict();
    store.HandleMultipleSiblings(stack[|stack| - 1], tagName, newElement);
    stack', tagStack' := stack + [newElement], tagStack + [tagName];
  }

  /** A non-blank text: `current_tag = tag_stack[-1]`, then the two text helpers on `stack[-2]`. */
  method StoreText(store: Store, stack: seq<nat>, tagStack: seq<string>, textValue: string)
    requires Valid(ParseState(store.objects, stack, tagStack)) && tagStack != []
    modifies store
    ensures TextStep(ParseState(old(store.objects), stack, tagStack), textValue)
      == ParseState(store.objects, stack, tagStack)
  {
    var currentTag := tagStack[|tagStack| - 1];
    var parent := stack[|stack| - 2];
    assert currentTag in store.objects[parent].vals;
    store.ReplaceEmptyDictWithText(parent, currentTag, textValue);
    RecentSiblingAssignedFormed(store.objects, parent, currentTag, textValue);
    store.AssignTextToMostRecentSibling(parent, currentTag, textValue);
  }

  // ---------------------------------------------------------------------------------------------
  // The two stacks

  /** The open tags' names after the token `t`: a start tag pushes its name, an end tag pops the
      innermost name whatever its own name, anything else leaves them. */
  function NamesAfter(open: seq<string>, t: string): seq<string>
  {
    if IsStartTag(t) && GetTagName(t).Ok? then open + [GetTagName(t).value]
    else if IsEndTag(t) && open != [] then open[..|open| - 1]
    else open
  }

  /** The two stacks move together: a start tag pushes its name and the new dict, an end tag pops
      both whatever its name, anything else leaves them. A step raises only for a start tag
      without a name, or for an end tag or a non-blank text when no tag is open. */
  lemma StepStacks(st: ParseState, t: string)
    requires Valid(st)
    ensures Step(st, t).Err?
      <==> (IsStartTag(t) && GetTagName(t).Err?) || ((IsEndTag(t) || (IsText(t) && GetTextValue(t) != [])) && st.tagStack == [])
    ensures Step(st, t).Ok? ==> Step(st, t).value.tagStack == NamesAfter(st.tagStack, t)
    ensures Step(st, t).Ok? ==>
      Step(st, t).value.stack
      == if IsStartTag(t) then st.stack + [|st.heap|] else if IsEndTag(t) then st.stack[..|st.stack| - 1] else st.stack
    ensures Step(st, t).Ok? && IsEndTag(t) ==> Step(st, t).value.heap == st.heap
  {
    TokenKinds(t);
  }

  // ---------------------------------------------------------------------------------------------
  // The store as JSON

  /** The dict `d` as the JSON object `custom_dumps` sees: its keys in insertion order. */
  function DictJson(heap: seq<PyObj>, d: nat): (r: Json)
    requires HeapFormed(heap) && IsDictAt(heap, d)
    ensures r.Object? && |r.members| == |heap[d].keys|
    ensures forall i :: 0 <= i < |heap[d].keys| ==> r.members[i].0 == heap[d].keys[i]
    decreases |heap| - d, 3
  {
    Object(MembersJson(heap, d, heap[d].keys))
  }

  function MembersJson(heap: seq<PyObj>, d: nat, keys: seq<string>): (r: seq<(string, Json)>)
    requires HeapFormed(heap) && IsDictAt(heap, d) && forall i :: 0 <= i < |keys| ==> keys[i] in heap[d].vals
    ensures |r| == |keys| && forall i :: 0 <= i < |keys| ==> r[i].0 == keys[i]
    decreases |heap| - d, 2, |keys|
  {
    if keys == [] then []
    else
      var k := keys[|keys| - 1];
      MembersJson(heap, d, keys[..|keys| - 1]) + [(k, ValJson(heap, d, heap[d].vals[k]))]
  }

  /** A value held by the dict `d`: a string, a dict, or a sibling list. */
  function ValJson(heap: seq<PyObj>, d: nat, v: Val): Json
    requires HeapFormed(heap) && d < |heap| && RankedVal(heap, d, v)
    decreases |heap| - d, 1
  {
    match v
    case Text(s) => Str(s)
    case Ref(id) => if heap[id].Dict? then DictJson(heap, id) else Array(ItemsJson(heap, d, heap[id].items))
  }

  function ItemsJson(heap: seq<PyObj>, d: nat, items: seq<Val>): (r: seq<Json>)
    requires HeapFormed(heap) && d < |heap| && forall i :: 0 <= i < |items| ==> RankedItem(heap, d, items[i])
    ensures |r| == |items|
    decreases |heap| - d, 0, |items|
  {
    if items == [] then []
    else
      var v := items[|items| - 1];
      assert RankedItem(heap, d, items[|items| - 1]);
      ItemsJson(heap, d, items[..|items| - 1]) + [if v.Text? then Str(v.text) else DictJson(heap, v.id)]
  }

  // ---------------------------------------------------------------------------------------------
  // Examples

  /** A start tag named `name`, a text that is not blank, and any end tag parse to
      `{name: text}` with the text stripped: the text replaces the empty dict of the element. */
  lemma TextReplacesEmptyDict(open: string, text: string, close: string, name: string)
    requires IsStartTag(open) && GetTagName(open) == Ok(name)
    requires IsText(text) && GetTextValue(text) != []
    requires IsEndTag(close)
    ensures var tokens := [open, text, close];
      Run(tokens, 3).Ok? && DictJson(Run(tokens, 3).value.heap, 0) == Object([(name, Str(GetTextValue(text)))])
  {
    var tokens := [open, text, close];
    var v := GetTextValue(text);
    var h := [Dict([name], map[name := Text(v)]), Dict([], map[])];
    assert Run(tokens, 2) == Ok(ParseState(h, [0, 1], [name])) by {
      OpenThenText(tokens, name);
    }
    assert Run(tokens, 3) == Ok(ParseState(h, [0], [])) by {
      RunNext(tokens, 3);
      var st := Run(tokens, 2).value;
      TokenKinds(close);
      assert st.stack[..1] == [0] && st.tagStack[..0] == [];
    }
    assert MembersJson(h, 0, [name]) == [(name, Str(v))] by {
      assert [name][..0] == [];
    }
  }

  /** The first two steps of the example above. */
  lemma OpenThenText(tokens: seq<string>, name: string)
    requires |tokens| >= 2 && IsStartTag(tokens[0]) && GetTagName(tokens[0]) == Ok(name)
    requires IsText(tokens[1]) && GetTextValue(tokens[1]) != []
    ensures Run(tokens, 2) == Ok(ParseState([Dict([name], map[name := Text(GetTextValue(tokens[1]))]), Dict([], map[])], [0, 1], [name]))
  {
    assert Run(tokens, 1) == Ok(FirstState(name)) by {
      RunNext(tokens, 1);
      TokenKinds(tokens[0]);
      FirstStart(name);
    }
    RunNext(tokens, 2);
    TextIntoEmpty(tokens[1], name);
  }

  /** The state after a first start tag named `name`. */
  function FirstState(name: string): ParseState
  {
    ParseState([Dict([name], map[name := Ref(1)]), Dict([], map[])], [0, 1], [name])
  }

  /** The first start tag stores a new dict under its name in the root and opens it. */
  lemma FirstStart(name: string)
    ensures StartStep(Init(), name) == Ok(FirstState(name)) && Valid(FirstState(name))
  {
    var heap := Init().heap + [Dict([], map[])];
    assert heap == [Dict([], map[]), Dict([], map[])];
    assert Put(heap[0], name, Ref(1)) == Dict([name], map[name := Ref(1)]) by {
      assert [] + [name] == [name];
    }
    assert SiblingAdded(heap, 0, name, 1) == FirstState(name).heap;
    assert Init().stack + [1] == [0, 1] && Init().tagStack + [name] == [name];
  }

  /** A text inside the first element replaces its empty dict. */
  lemma TextIntoEmpty(text: string, name: string)
    requires IsText(text) && GetTextValue(text) != []
    ensures Valid(FirstState(name))
    ensures Step(FirstState(name), text)
      == Ok(ParseState([Dict([name], map[name := Text(GetTextValue(text))]), Dict([], map[])], [0, 1], [name]))
  {
    FirstStart(name);
    TokenKinds(text);
    var v := GetTextValue(text);
    var st := FirstState(name);
    var h := EmptyDictReplaced(st.heap, 0, name, v);
    assert map[name := Ref(1)][name := Text(v)] == map[name := Text(v)];
    assert h == [Dict([name], map[name := Text(v)]), Dict([], map[])];
    assert RecentSiblingAssigned(h, 0, name, v) == h;
    assert TextStep(st, v) == ParseState(h, [0, 1], [name]);
  }
}
