/**
  The Document class of document.py: a dict whose construction checks every
  key against a JavaScript-identifier pattern and converts nested dicts into
  Documents and the elements of list values into Documents, recursively.

  Nested Documents are held as values (`Node`), not as separate objects.
 */
module Documents {
  import opened PyValues

  // ---------------------------------------------------------------------
  // The key pattern of document.py: one lead character, then tail
  // characters, anchored at both ends
  // ---------------------------------------------------------------------

  /** `[\$A-Za-z_]` */
  predicate IsLeadChar(c: char)
  {
    c == '$' || c == '_' || 'A' <= c <= 'Z' || 'a' <= c <= 'z'
  }

  /** `[0-9A-Za-z_\$]` */
  predicate IsTailChar(c: char)
  {
    IsLeadChar(c) || '0' <= c <= '9'
  }

  /** How far the greedy `[0-9A-Za-z_\$]*` reaches from position `j`. */
  function TailEnd(key: string, j: nat): (e: nat)
    requires j <= |key|
    ensures j <= e <= |key|
    ensures forall k | j <= k < e :: IsTailChar(key[k])
    ensures e < |key| ==> !IsTailChar(key[e])
    decreases |key| - j
  {
    if j < |key| && IsTailChar(key[j]) then TailEnd(key, j + 1) else j
  }

  /** `valid_key.match(key)` succeeds. Python's `$` matches at the end of the
      string or just before a newline that ends it. */
  predicate KeyMatches(key: string)
  {
    |key| > 0 && IsLeadChar(key[0]) &&
    var e := TailEnd(key, 1);
    e == |key| || (e == |key| - 1 && key[e] == '\n')
  }

  /** A JavaScript-style identifier: a lead character followed by tail characters. */
  predicate IsIdentifier(s: string)
  {
    |s| > 0 && IsLeadChar(s[0]) && forall k | 1 <= k < |s| :: IsTailChar(s[k])
  }

  /** The pattern accepts exactly the identifiers, with or without one
      trailing newline. */
  lemma KeyMatchesIff(key: string)
    ensures KeyMatches(key) <==>
      IsIdentifier(key) || (|key| > 0 && key[|key| - 1] == '\n' && IsIdentifier(key[..|key| - 1]))
  {
    if |key| > 0 && IsLeadChar(key[0]) {
      var e := TailEnd(key, 1);
      if IsIdentifier(key) {
        assert e == |key|;
      } else if key[|key| - 1] == '\n' && IsIdentifier(key[..|key| - 1]) {
        var body := key[..|key| - 1];
        assert forall k | 1 <= k < |body| :: key[k] == body[k];
        assert e == |key| - 1;
      }
    }
  }

  /** The keys the repository's tests reject, and a key ending in a newline
      that the pattern lets through. */
  lemma KeyExamples()
    ensures !KeyMatches("")
    ensures !KeyMatches("contains space")
    ensures KeyMatches("$ref_2")
    ensures KeyMatches("author\n")
  {
    KeyMatchesIff("contains space");
    assert "contains space"[8] == ' ';
    KeyMatchesIff("$ref_2");
    KeyMatchesIff("author\n");
    assert "author\n"[..6] == "author";
  }

  // ---------------------------------------------------------------------
  // Construction
  // ---------------------------------------------------------------------

  /** A value held by a Document: a nested Document, a list whose elements
      are Documents, or any other value, unchanged. */
  datatype Node =
    | Doc(entries: map<string, Node>)
    | Docs(items: seq<Node>)
    | Leaf(value: Value)

  /** The entries of `Document(initial)`, or None when the constructor
      raises: an invalid key, or a truthy `initial` that is not a dict. A
      falsy `initial` (None, {}, '', 0, ...) gives an empty Document. */
  function Construct(initial: Value): (r: Option<map<string, Node>>)
    ensures !Truthy(initial) ==> r == Some(map[])
    ensures Truthy(initial) && !initial.Dict? ==> r.None?
    ensures r.Some? && initial.Dict? ==> r.value.Keys == initial.fields.Keys
    ensures r.Some? && !initial.Dict? ==> r.value == map[]
    decreases initial, 1
  {
    if !Truthy(initial) then Some(map[])
    else if !initial.Dict? then None
    else
      var m := initial.fields;
      if forall k | k in m :: KeyMatches(k) && Convert(m[k]).Some? then
        Some(map k | k in m :: Convert(m[k]).value)
      else None
  }

  /** What the constructor stores for one value: a dict becomes a Document,
      each element of a list becomes `Document(element)`, anything else is
      kept. None when a nested construction raises. */
  function Convert(v: Value): (r: Option<Node>)
    ensures v.Dict? ==> (r.Some? <==> Construct(v).Some?)
    ensures v.Dict? && r.Some? ==> r.value.Doc? && r.value.entries.Keys == v.fields.Keys
    ensures v.List? ==> (r.Some? <==> forall i | 0 <= i < |v.items| :: Construct(v.items[i]).Some?)
    ensures v.List? && r.Some? ==>
      r.value.Docs? && |r.value.items| == |v.items| &&
      forall i | 0 <= i < |v.items| :: r.value.items[i].Doc?
    ensures !v.Dict? && !v.List? ==> r == Some(Leaf(v))
    decreases v, 2
  {
    match v
    case Dict(_) =>
      (match Construct(v)
       case Some(d) => Some(Doc(d))
       case None => None)
    case List(xs) =>
      if forall i | 0 <= i < |xs| :: Construct(xs[i]).Some? then
        Some(Docs(seq(|xs|, i requires 0 <= i < |xs| => Doc(Construct(xs[i]).value))))
      else None
    case _ => Some(Leaf(v))
  }

  /** The plain value a Document stands for. */
  function ToValue(n: Node): Value
  {
    match n
    case Doc(e) => Dict(map k | k in e :: ToValue(e[k]))
    case Docs(ns) => List(seq(|ns|, i requires 0 <= i < |ns| => ToValue(ns[i])))
    case Leaf(v) => v
  }

  /** Every key of every dict in `v`, at any depth, matches the pattern. */
  predicate AllKeysValid(v: Value)
    decreases v
  {
    match v
    case Dict(m) => forall k | k in m :: KeyMatches(k) && AllKeysValid(m[k])
    case List(xs) => forall i | 0 <= i < |xs| :: AllKeysValid(xs[i])
    case _ => true
  }

  /** Every list in `v`, at any depth, holds only dicts. */
  predicate ListsHoldDicts(v: Value)
    decreases v
  {
    match v
    case Dict(m) => forall k | k in m :: ListsHoldDicts(m[k])
    case List(xs) => forall i | 0 <= i < |xs| :: xs[i].Dict? && ListsHoldDicts(xs[i])
    case _ => true
  }

  /** Construction succeeds only if every key at every depth is valid. */
  lemma {:induction false} ConstructChecksAllKeys(v: Value)
    requires Construct(v).Some?
    ensures AllKeysValid(v)
    decreases v, 1
  {
    match v
    case Dict(m) =>
      forall k | k in m ensures KeyMatches(k) && AllKeysValid(m[k]) {
        ConvertChecksAllKeys(m[k]);
      }
    case List(xs) =>
    case _ =>
  }

  lemma {:induction false} ConvertChecksAllKeys(v: Value)
    requires Convert(v).Some?
    ensures AllKeysValid(v)
    decreases v, 2
  {
    match v
    case Dict(_) =>
      ConstructChecksAllKeys(v);
    case List(xs) =>
      forall i | 0 <= i < |xs| ensures AllKeysValid(xs[i]) {
        ConstructChecksAllKeys(xs[i]);
      }
    case _ =>
  }

  /** A dict whose keys are all valid and whose lists hold only dicts is
      converted without loss: turning the Document back into plain values
      gives the input. */
  lemma {:induction false} ConstructRoundTrip(v: Value)
    requires v.Dict? && AllKeysValid(v) && ListsHoldDicts(v)
    ensures Construct(v).Some?
    ensures ToValue(Doc(Construct(v).value)) == v
    decreases v, 1
  {
    var m := v.fields;
    forall k | k in m ensures KeyMatches(k) && Convert(m[k]).Some? && ToValue(Convert(m[k]).value) == m[k] {
      ConvertRoundTrip(m[k]);
    }
    if Truthy(v) {
      var d := map k | k in m :: Convert(m[k]).value;
      assert Construct(v) == Some(d);
      var back := map k | k in d :: ToValue(d[k]);
      assert back.Keys == m.Keys;
      assert back == m;
    } else {
      assert m == map[];
    }
  }

  lemma {:induction false} ConvertRoundTrip(v: Value)
    requires AllKeysValid(v) && ListsHoldDicts(v)
    ensures Convert(v).Some?
    ensures ToValue(Convert(v).value) == v
    decreases v, 2
  {
    match v
    case Dict(_) =>
      ConstructRoundTrip(v);
    case List(xs) =>
      forall i | 0 <= i < |xs| ensures Construct(xs[i]).Some? && ToValue(Doc(Construct(xs[i]).value)) == xs[i] {
        ConstructRoundTrip(xs[i]);
      }
      var ns := seq(|xs|, i requires 0 <= i < |xs| => Doc(Construct(xs[i]).value));
      assert ToValue(Docs(ns)) == List(xs);
    case _ =>
  }

  /** A falsy element of a list value (None, 0, '', [], {}) is stored as an
      empty Document, and a dict element as the Document built from it. */
  lemma ListElementsBecomeDocuments(xs: seq<Value>, i: nat)
    requires i < |xs| && Convert(List(xs)).Some?
    ensures !Truthy(xs[i]) ==> Convert(List(xs)).value.items[i] == Doc(map[])
    ensures xs[i].Dict? ==> Convert(List(xs)).value.items[i] == Convert(xs[i]).value
  {
  }

  /** As written, every element of a list value goes through `Document(item)`:
      a truthy element that is not a dict (a non-empty string, say) makes the
      construction raise. */
  lemma ListOfStringsRaises(key: string, xs: seq<Value>, i: nat)
    requires KeyMatches(key) && i < |xs| && Truthy(xs[i]) && !xs[i].Dict?
    ensures Construct(Dict(map[key := List(xs)])) == None
  {
    var m := map[key := List(xs)];
    assert key in m && m[key] == List(xs);
    assert Construct(xs[i]).None?;
    assert Convert(List(xs)).None?;
    assert Truthy(Dict(m));
  }

  /** The document of tests/document_test.py, reduced to its list of tags:
      `Document({'tags': ['recipe', 'cookies']})` raises. */
  lemma TagsExample()
    ensures Construct(Dict(map["tags" := List([Str("recipe"), Str("cookies")])])) == None
  {
    KeyMatchesIff("tags");
    ListOfStringsRaises("tags", [Str("recipe"), Str("cookies")], 0);
  }

  // ---------------------------------------------------------------------
  // The class
  // ---------------------------------------------------------------------

  /** The result of an attribute access. */
  datatype Attribute = Found(value: Node) | AttributeError(message: string)

  /** A Document: a dict whose entries were converted by its constructor. */
  class Document {
    var entries: map<string, Node>

    constructor Empty()
      ensures entries == map[]
    {
      entries := map[];
    }

    /** `Document(initial)`: None when the constructor raises. */
    static method Create(initial: Value) returns (doc: Option<Document>)
      ensures doc.Some? <==> Construct(initial).Some?
      ensures doc.Some? ==> fresh(doc.value) && doc.value.entries == Construct(initial).value
      decreases initial, 1
    {
      var d := new Document.Empty();
      if !Truthy(initial) {
        return Some(d);
      }
      if !initial.Dict? {
        return None;
      }
      var m := initial.fields;
      var remaining := m.Keys;
      while remaining != {}
        invariant remaining <= m.Keys
        invariant d.entries.Keys == m.Keys - remaining
        invariant forall k | k in m.Keys - remaining ::
          KeyMatches(k) && Convert(m[k]).Some? && d.entries[k] == Convert(m[k]).value
        decreases remaining
      {
        var key :| key in remaining;
        if !KeyMatches(key) {
          return None;
        }
        var node := StoredValue(m[key]);
        if node.None? {
          return None;
        }
        d.entries := d.entries[key := node.value];
        remaining := remaining - {key};
      }
      assert d.entries == Construct(initial).value;
      return Some(d);
    }

    /** What `__init__` stores for one value of `initial`: `Document(value)`
        for a dict, `[Document(item) for item in value]` for a list, the value
        itself otherwise. None when a nested construction raises. */
    static method StoredValue(value: Value) returns (node: Option<Node>)
      ensures node == Convert(value)
      decreases value, 2
    {
      if value.Dict? {
        var sub := Create(value);
        if sub.None? {
          return None;
        }
        return Some(Doc(sub.value.entries));
      } else if value.List? {
        var docs: seq<Node> := [];
        var j := 0;
        while j < |value.items|
          invariant 0 <= j <= |value.items|
          invariant |docs| == j
          invariant forall i | 0 <= i < j ::
            Construct(value.items[i]).Some? && docs[i] == Doc(Construct(value.items[i]).value)
        {
          var sub := Create(value.items[j]);
          if sub.None? {
            return None;
          }
          docs := docs + [Doc(sub.value.entries)];
          j := j + 1;
        }
        assert docs == seq(|value.items|, i requires 0 <= i < |value.items| => Doc(Construct(value.items[i]).value));
        return Some(Docs(docs));
      }
      return Some(Leaf(value));
    }

    /** `d.name` for a name that is not an ordinary attribute: the entry when
        the key is present, AttributeError otherwise (its message is the
        unformatted template). */
    function GetAttr(name: string): (r: Attribute)
      reads this
      ensures r.Found? <==> name in entries
      ensures r.Found? ==> r.value == entries[name]
      ensures r.AttributeError? ==> r.message == "{0} is not found"
    {
      if name in entries then Found(entries[name]) else AttributeError("{0} is not found")
    }
  }
}
