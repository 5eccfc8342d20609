/*
 * The superjson-style envelope codec of civitai/client/superjs.py.
 *
 * `Format` is `req_data_format`: it rewrites every leaf whose exact type has a
 * registered formatter (the `undefined` sentinel, a datetime) into its wire form
 * and records the leaf's dotted path in `meta.values`. `Parse` is
 * `resp_data_parse`: it walks each recorded path in a copy of `json` and
 * replaces that slot by `parser[tag](slot)`.
 */
module SuperJson {
  import opened Values

  /** The date conversions the codec treats as opaque: `format` stands for
      `_format_time` applied to a datetime, `parse` for `dateparser.parse`. */
  datatype DateCodec = DateCodec(format: Instant -> string, parse: Value -> Value)

  /** The entries of `_SUPERJSON_PARSERS`. */
  datatype Parser = UndefinedParser | DateParser

  /** `_SUPERJSON_PARSERS[name]`: an unregistered name is a KeyError, an unhashable one a TypeError. */
  function ParserNamed(name: Value): Result<Parser> {
    if name == Str("undefined") then Ok(UndefinedParser)
    else if name == Str("Date") then Ok(DateParser)
    else if Hashable(name) then Err(KeyError)
    else Err(TypeError)
  }

  /** `_SUPERJSON_PARSERS[value[0]]` for one entry `path: value` of `meta.values`. */
  function TagParser(value: Value): Result<Parser> {
    var name :- Subscript(value, Index(0));
    ParserNamed(name)
  }

  function RunParser(p: Parser, x: Value, dc: DateCodec): Value {
    match p
    case UndefinedParser => Null
    case DateParser => dc.parse(x)
  }

  /** The tag of `_SUPERJSON_FORMATTERS[type(node)]`, when the exact type is registered. */
  function FormatterTag(node: Value): Option<string> {
    match node
    case Undefined => Some("undefined")
    case Date(_) => Some("Date")
    case _ => None
  }

  /** The wire form the registered formatter gives a typed leaf. */
  function Formatted(node: Value, dc: DateCodec): Value
    requires FormatterTag(node).Some?
  {
    if node.Date? then Str(dc.format(node.at)) else Null
  }

  /** The one-element list `[tag]` stored in `meta.values`. */
  function TagList(tag: string): Value {
    List([Str(tag)])
  }

  // ---------------------------------------------------------------------------
  // Encoding: req_data_format
  // ---------------------------------------------------------------------------

  /** `_recursion(node, keys)`, threading the `meta` dict it assigns into.
      Lists and dicts are rebuilt; tuples and other leaves are not entered. */
  function FormatNode(node: Value, keys: seq<string>, meta: seq<Entry>, dc: DateCodec): (Value, seq<Entry>)
    requires keys != [] || FormatterTag(node).None?
    decreases node
  {
    match node
    case List(xs) =>
      var (ys, meta') := FormatItems(xs, keys, 0, meta, dc);
      (List(ys), meta')
    case Dict(es) =>
      var (fs, meta') := FormatEntries(es, keys, 0, meta, dc);
      (Dict(fs), meta')
    case _ =>
      match FormatterTag(node)
      case Some(tag) => (Formatted(node, dc), Store(meta, JoinPath(keys), TagList(tag)))
      case None => (node, meta)
  }

  /** The list comprehension over `enumerate(node)`, from index `i` on. */
  function FormatItems(xs: seq<Value>, keys: seq<string>, i: nat, meta: seq<Entry>, dc: DateCodec): (seq<Value>, seq<Entry>)
    requires i <= |xs|
    decreases xs, |xs| - i
  {
    if i == |xs| then ([], meta)
    else
      var (y, meta1) := FormatNode(xs[i], keys + [DecimalString(i)], meta, dc);
      var (ys, meta2) := FormatItems(xs, keys, i + 1, meta1, dc);
      ([y] + ys, meta2)
  }

  /** The dict comprehension over `node.items()`, from entry `i` on. */
  function FormatEntries(es: seq<Entry>, keys: seq<string>, i: nat, meta: seq<Entry>, dc: DateCodec): (seq<Entry>, seq<Entry>)
    requires i <= |es|
    decreases es, |es| - i
  {
    if i == |es| then ([], meta)
    else
      var (y, meta1) := FormatNode(es[i].val, keys + [es[i].key], meta, dc);
      var (fs, meta2) := FormatEntries(es, keys, i + 1, meta1, dc);
      ([Entry(es[i].key, y)] + fs, meta2)
  }

  /** `req_data_format(native)`: a typed root gets `meta.values == [tag]`; no typed leaf, no `meta`. */
  function Format(native: Value, dc: DateCodec): Value {
    match FormatterTag(native)
    case Some(tag) =>
      Dict([Entry("json", Formatted(native, dc)), Entry("meta", Dict([Entry("values", TagList(tag))]))])
    case None =>
      var (json, meta) := FormatNode(native, [], [], dc);
      if meta == [] then Dict([Entry("json", json)])
      else Dict([Entry("json", json), Entry("meta", Dict([Entry("values", Dict(meta))]))])
  }

  // ---------------------------------------------------------------------------
  // Decoding: resp_data_parse
  // ---------------------------------------------------------------------------

  /** How a path segment subscripts `node`: converted by `int()` only when `node` is a list. */
  function SegmentKey(node: Value, segment: string): Result<Key> {
    if node.List? then
      match ParseInt(segment)
      case Some(n) => Ok(Index(n))
      case None => Err(ValueError)
    else Ok(Name(segment))
  }

  /** One entry of a `meta.values` dict: walk `segs` from `node`, then
      `node[key] = _SUPERJSON_PARSERS[value[0]](node[key])` with the last segment as `key`.
      Each level stores its changed child back. As written, the last segment stays a
      string even when `node` is a list; `indexLast` converts it like the others. */
  function ApplyAt(node: Value, segs: seq<string>, value: Value, dc: DateCodec, indexLast: bool): Result<Value>
    requires segs != []
    decreases |segs|
  {
    if |segs| == 1 then
      var key :- if indexLast then SegmentKey(node, segs[0]) else Ok(Name(segs[0]));
      var p :- TagParser(value);
      var slot :- Subscript(node, key);
      Assign(node, key, RunParser(p, slot, dc))
    else
      var key :- SegmentKey(node, segs[0]);
      var child :- Subscript(node, key);
      var child' :- ApplyAt(child, segs[1..], value, dc, indexLast);
      Assign(node, key, child')
  }

  /** The loop over `meta['values'].items()`, in order. */
  function ApplyEntries(tree: Value, es: seq<Entry>, dc: DateCodec, indexLast: bool): Result<Value>
    decreases |es|
  {
    if es == [] then Ok(tree)
    else
      var tree' :- ApplyAt(tree, SplitDots(es[0].key), es[0].val, dc, indexLast);
      ApplyEntries(tree', es[1..], dc, indexLast)
  }

  /** `(native.get('meta') or {}).get('values')`; a truthy `meta` that is not a dict has no `get`. */
  function MetaValues(native: Value): Result<Value>
    requires native.Dict?
  {
    var given := DictGet(native.entries, "meta");
    var meta := if Truthy(given) then given else Dict([]);
    if meta.Dict? then Ok(DictGet(meta.entries, "values")) else Err(AttributeError)
  }

  /** `resp_data_parse(native)`. The copy of `json` is implicit: values are immutable. */
  function ParseWith(native: Value, dc: DateCodec, indexLast: bool): Result<Value> {
    var raw :- Subscript(native, Name("json"));
    var values :- MetaValues(native);
    if !Truthy(values) then Ok(raw)
    else
      match values
      case Dict(es) => ApplyEntries(raw, es, dc, indexLast)
      case List(xs) =>
        if |xs| != 1 then Err(AssertionError)
        else
          var p :- ParserNamed(xs[0]);
          Ok(RunParser(p, raw, dc))
      case _ => Err(TypeError)
  }

  /** `resp_data_parse` as written. */
  function Parse(native: Value, dc: DateCodec): Result<Value> {
    ParseWith(native, dc, false)
  }

  /** `resp_data_parse` with the last segment of a path into a list read as an index. */
  function ParseFixed(native: Value, dc: DateCodec): Result<Value> {
    ParseWith(native, dc, true)
  }

  // ---------------------------------------------------------------------------
  // resp_data_parse step by step
  // ---------------------------------------------------------------------------

  /** One level of the walk: store the changed child back under `key` in `parent`. */
  function StoreBack(parent: Value, key: Key, child: Result<Value>): Result<Value>
    requires Subscript(parent, key).Ok?
  {
    var c :- child;
    Assign(parent, key, c)
  }

  /** The parents a walk went through, each with the key it took, outermost first. */
  predicate Walkable(trail: seq<(Value, Key)>) {
    forall m :: 0 <= m < |trail| ==> Subscript(trail[m].0, trail[m].1).Ok?
  }

  /** What storing `inner` back through every level of `trail` gives at the top. */
  function Rebuild(trail: seq<(Value, Key)>, inner: Result<Value>): Result<Value>
    requires Walkable(trail)
    decreases |trail|
  {
    if trail == [] then inner
    else
      var last := trail[|trail| - 1];
      Rebuild(trail[..|trail| - 1], StoreBack(last.0, last.1, inner))
  }

  lemma {:induction false} RebuildErr(trail: seq<(Value, Key)>, e: PyError)
    requires Walkable(trail)
    ensures Rebuild(trail, Err(e)) == Err(e)
    decreases |trail|
  {
    if trail != [] {
      RebuildErr(trail[..|trail| - 1], e);
    }
  }

  lemma RebuildPush(trail: seq<(Value, Key)>, parent: Value, key: Key, inner: Result<Value>)
    requires Walkable(trail) && Subscript(parent, key).Ok?
    ensures Walkable(trail + [(parent, key)])
    ensures Rebuild(trail + [(parent, key)], inner) == Rebuild(trail, StoreBack(parent, key, inner))
  {
    assert (trail + [(parent, key)])[..|trail|] == trail;
  }

  lemma RebuildPop(trail: seq<(Value, Key)>, j: nat, c: Value)
    requires Walkable(trail) && 0 < j <= |trail|
    ensures Rebuild(trail[..j], Ok(c)) == Rebuild(trail[..j - 1], Assign(trail[j - 1].0, trail[j - 1].1, c))
  {
    assert trail[..j][..j - 1] == trail[..j - 1] && trail[..j][j - 1] == trail[j - 1];
  }

  /** An intermediate segment: subscript, walk on in the child, store the child back. */
  lemma ApplyAtInner(node: Value, segs: seq<string>, i: nat, value: Value, dc: DateCodec, indexLast: bool)
    requires i < |segs| - 1
    ensures ApplyAt(node, segs[i..], value, dc, indexLast)
         == (var key :- SegmentKey(node, segs[i]);
             var child :- Subscript(node, key);
             StoreBack(node, key, ApplyAt(child, segs[i + 1..], value, dc, indexLast)))
  {
    assert segs[i..][0] == segs[i] && segs[i..][1..] == segs[i + 1..];
  }

  /** One `key_str: value` entry: the inner loop walks down to the parent of the last
      segment, then the parser result is stored and the changed nodes are written back
      level by level (what aliasing into the deep copy achieves in place). */
  method ApplyPath(tree: Value, segs: seq<string>, value: Value, dc: DateCodec, indexLast: bool) returns (r: Result<Value>)
    requires segs != []
    ensures r == ApplyAt(tree, segs, value, dc, indexLast)
  {
    var node := tree;
    var trail: seq<(Value, Key)> := [];
    var i := 0;
    while i < |segs| - 1
      invariant 0 <= i <= |segs| - 1
      invariant Walkable(trail)
      invariant ApplyAt(tree, segs, value, dc, indexLast) == Rebuild(trail, ApplyAt(node, segs[i..], value, dc, indexLast))
    {
      ApplyAtInner(node, segs, i, value, dc, indexLast);
      var key := SegmentKey(node, segs[i]);
      if key.Err? {
        RebuildErr(trail, key.error);
        return Err(key.error);
      }
      var child := Subscript(node, key.value);
      if child.Err? {
        RebuildErr(trail, child.error);
        return Err(child.error);
      }
      RebuildPush(trail, node, key.value, ApplyAt(child.value, segs[i + 1..], value, dc, indexLast));
      trail := trail + [(node, key.value)];
      node := child.value;
      i := i + 1;
    }
    assert segs[i..] == [segs[i]];
    var leaf := ApplyLast(node, segs[i], value, dc, indexLast);
    r := WriteBack(trail, leaf);
  }

  /** The changed nodes are stored back into their parents, innermost first, until one store fails. */
  method WriteBack(trail: seq<(Value, Key)>, leaf: Result<Value>) returns (r: Result<Value>)
    requires Walkable(trail)
    ensures r == Rebuild(trail, leaf)
  {
    r := leaf;
    var j := |trail|;
    assert trail[..j] == trail;
    while j > 0 && r.Ok?
      invariant 0 <= j <= |trail|
      invariant Rebuild(trail, leaf) == Rebuild(trail[..j], r)
    {
      RebuildPop(trail, j, r.value);
      var (parent, k) := trail[j - 1];
      r := Assign(parent, k, r.value);
      j := j - 1;
    }
    if r.Err? {
      RebuildErr(trail[..j], r.error);
    }
  }

  lemma ApplyAtLast(node: Value, seg: string, value: Value, dc: DateCodec, indexLast: bool)
    ensures ApplyAt(node, [seg], value, dc, indexLast)
         == (var key :- if indexLast then SegmentKey(node, seg) else Ok(Name(seg));
             var p :- TagParser(value);
             var slot :- Subscript(node, key);
             Assign(node, key, RunParser(p, slot, dc)))
  {
    assert [seg][0] == seg;
  }

  /** `node[key] = _SUPERJSON_PARSERS[value[0]](node[key])` for the last segment. */
  method ApplyLast(node: Value, seg: string, value: Value, dc: DateCodec, indexLast: bool) returns (r: Result<Value>)
    ensures r == ApplyAt(node, [seg], value, dc, indexLast)
  {
    ApplyAtLast(node, seg, value, dc, indexLast);
    var key := if indexLast then SegmentKey(node, seg) else Ok(Name(seg));
    if key.Err? {
      return Err(key.error);
    }
    var parser := TagParser(value);
    if parser.Err? {
      return Err(parser.error);
    }
    var slot := Subscript(node, key.value);
    if slot.Err? {
      return Err(slot.error);
    }
    r := Assign(node, key.value, RunParser(parser.value, slot.value, dc));
  }

  lemma ApplyEntriesFrom(tree: Value, es: seq<Entry>, k: nat, dc: DateCodec, indexLast: bool)
    requires k < |es|
    ensures ApplyEntries(tree, es[k..], dc, indexLast)
         == (var t :- ApplyAt(tree, SplitDots(es[k].key), es[k].val, dc, indexLast);
             ApplyEntries(t, es[k + 1..], dc, indexLast))
  {
    assert es[k..][0] == es[k] && es[k..][1..] == es[k + 1..];
  }

  /** The loop over `meta['values'].items()`. */
  method ApplyAll(raw: Value, es: seq<Entry>, dc: DateCodec, indexLast: bool) returns (r: Result<Value>)
    ensures r == ApplyEntries(raw, es, dc, indexLast)
  {
    var tree := raw;
    var k := 0;
    assert es[0..] == es;
    while k < |es|
      invariant 0 <= k <= |es|
      invariant ApplyEntries(tree, es[k..], dc, indexLast) == ApplyEntries(raw, es, dc, indexLast)
    {
      ApplyEntriesFrom(tree, es, k, dc, indexLast);
      var step := ApplyPath(tree, SplitDots(es[k].key), es[k].val, dc, indexLast);
      if step.Err? {
        return Err(step.error);
      }
      tree := step.value;
      k := k + 1;
    }
    return Ok(tree);
  }

  /** `resp_data_parse(native)`, following the loops of the source. */
  method ParseEnvelope(native: Value, dc: DateCodec, indexLast: bool) returns (r: Result<Value>)
    ensures r == ParseWith(native, dc, indexLast)
  {
    var raw := Subscript(native, Name("json"));
    if raw.Err? {
      return Err(raw.error);
    }
    var values := MetaValues(native);
    if values.Err? {
      return Err(values.error);
    }
    if !Truthy(values.value) {
      return raw;
    }
    match values.value {
      case Dict(es) =>
        r := ApplyAll(raw.value, es, dc, indexLast);
      case List(xs) =>
        if |xs| != 1 {
          r := Err(AssertionError);
        } else {
          var parser := ParserNamed(xs[0]);
          if parser.Err? {
            r := Err(parser.error);
          } else {
            r := Ok(RunParser(parser.value, raw.value, dc));
          }
        }
      case _ =>
        r := Err(TypeError);
    }
  }
}
