/*
 * What the envelope codec guarantees: a value made of lists and dicts whose
 * typed leaves sit under dict keys comes back from `Parse(Format(v))` with its
 * datetimes intact and its `undefined` sentinels turned into `None`.
 *
 * The proof goes through an independent description of the encoding: `Wire`
 * is the `json` part, `Leaves` the list of typed leaves with their paths in
 * the order the comprehensions visit them, and `MetaOf` the `meta.values`
 * entries those leaves give.
 */
module SuperJsonLaws {
  import opened Values
  import opened SuperJson

  /** A typed leaf: where it sits, and the tag its formatter records. */
  datatype Leaf = Leaf(path: seq<string>, tag: string)

  /** The `json` part of the envelope: typed leaves reachable through lists and dicts in wire form. */
  function Wire(v: Value, dc: DateCodec): Value
    decreases v
  {
    match v
    case List(xs) => List(seq(|xs|, i requires 0 <= i < |xs| => Wire(xs[i], dc)))
    case Dict(es) => Dict(seq(|es|, i requires 0 <= i < |es| => Entry(es[i].key, Wire(es[i].val, dc))))
    case _ => if FormatterTag(v).Some? then Formatted(v, dc) else v
  }

  /** What decoding gives back: every `undefined` reachable through lists and dicts becomes `None`. */
  function Restored(v: Value): Value
    decreases v
  {
    match v
    case Undefined => Null
    case List(xs) => List(seq(|xs|, i requires 0 <= i < |xs| => Restored(xs[i])))
    case Dict(es) => Dict(seq(|es|, i requires 0 <= i < |es| => Entry(es[i].key, Restored(es[i].val))))
    case _ => v
  }

  predicate NonemptyPaths(L: seq<Leaf>) {
    forall j :: 0 <= j < |L| ==> L[j].path != []
  }

  predicate DotFreePaths(L: seq<Leaf>) {
    forall j, s :: 0 <= j < |L| && 0 <= s < |L[j].path| ==> DotFree(L[j].path[s])
  }

  predicate DistinctPaths(L: seq<Leaf>) {
    forall a, b :: 0 <= a < b < |L| ==> L[a].path != L[b].path
  }

  /** The leaves of a child, seen from its parent through segment `seg`. */
  function Under(seg: string, L: seq<Leaf>): (r: seq<Leaf>)
    ensures NonemptyPaths(r)
  {
    seq(|L|, j requires 0 <= j < |L| => Leaf([seg] + L[j].path, L[j].tag))
  }

  /** The leaves of a node, seen from the root when the node sits at `keys`. */
  function Above(keys: seq<string>, L: seq<Leaf>): seq<Leaf> {
    seq(|L|, j requires 0 <= j < |L| => Leaf(keys + L[j].path, L[j].tag))
  }

  /** The `meta.values` entries recording `L`. */
  function MetaOf(L: seq<Leaf>): seq<Entry> {
    seq(|L|, j requires 0 <= j < |L| => Entry(JoinPath(L[j].path), TagList(L[j].tag)))
  }

  /** The typed leaves of `v`, in the order `_recursion` visits them, with paths relative to `v`. */
  function Leaves(v: Value): (L: seq<Leaf>)
    ensures FormatterTag(v).None? ==> NonemptyPaths(L)
    decreases v
  {
    match v
    case List(xs) => ItemLeaves(xs, 0)
    case Dict(es) => EntryLeaves(es, 0)
    case _ =>
      match FormatterTag(v)
      case Some(tag) => [Leaf([], tag)]
      case None => []
  }

  function ItemLeaves(xs: seq<Value>, i: nat): (L: seq<Leaf>)
    requires i <= |xs|
    ensures NonemptyPaths(L)
    decreases xs, |xs| - i
  {
    if i == |xs| then [] else Under(DecimalString(i), Leaves(xs[i])) + ItemLeaves(xs, i + 1)
  }

  function EntryLeaves(es: seq<Entry>, i: nat): (L: seq<Leaf>)
    requires i <= |es|
    ensures NonemptyPaths(L)
    decreases es, |es| - i
  {
    if i == |es| then [] else Under(es[i].key, Leaves(es[i].val)) + EntryLeaves(es, i + 1)
  }

  /** Dict keys are distinct and free of dots: a dot would split the recorded path. */
  predicate KeysSafe(v: Value)
    decreases v
  {
    match v
    case List(xs) => forall i :: 0 <= i < |xs| ==> KeysSafe(xs[i])
    case Dict(es) => DistinctKeys(es) && forall i :: 0 <= i < |es| ==> DotFree(es[i].key) && KeysSafe(es[i].val)
    case _ => true
  }

  /** No typed leaf sits directly in a list: as written, the last path segment would
      subscript the list with a string. */
  predicate NoTypedItems(v: Value)
    decreases v
  {
    match v
    case List(xs) => forall i :: 0 <= i < |xs| ==> FormatterTag(xs[i]).None? && NoTypedItems(xs[i])
    case Dict(es) => forall i :: 0 <= i < |es| ==> NoTypedItems(es[i].val)
    case _ => true
  }

  /** The date parser reads back what the date formatter writes. */
  ghost predicate DatesRoundTrip(dc: DateCodec) {
    forall d :: dc.parse(Str(dc.format(d))) == Date(d)
  }

  // ---------------------------------------------------------------------------
  // Encoding
  // ---------------------------------------------------------------------------

  lemma AboveUnder(keys: seq<string>, seg: string, L: seq<Leaf>)
    ensures Above(keys, Under(seg, L)) == Above(keys + [seg], L)
  {
    forall j | 0 <= j < |L| ensures keys + ([seg] + L[j].path) == (keys + [seg]) + L[j].path {
    }
  }

  lemma AboveConcat(keys: seq<string>, A: seq<Leaf>, B: seq<Leaf>)
    ensures Above(keys, A + B) == Above(keys, A) + Above(keys, B)
  {
  }

  lemma MetaConcat(A: seq<Leaf>, B: seq<Leaf>)
    ensures MetaOf(A + B) == MetaOf(A) + MetaOf(B)
  {
  }

  /** `meta[path] = [tag]` for each entry of `M` in turn: a later path equal to an earlier one overwrites it in place. */
  function StoreAll(meta: seq<Entry>, M: seq<Entry>): seq<Entry>
    decreases |M|
  {
    if M == [] then meta else StoreAll(Store(meta, M[0].key, M[0].val), M[1..])
  }

  lemma {:induction false} StoreAllConcat(meta: seq<Entry>, A: seq<Entry>, B: seq<Entry>)
    ensures StoreAll(meta, A + B) == StoreAll(StoreAll(meta, A), B)
    decreases |A|
  {
    if A == [] {
      assert A + B == B;
    } else {
      assert (A + B)[0] == A[0] && (A + B)[1..] == A[1..] + B;
      StoreAllConcat(Store(meta, A[0].key, A[0].val), A[1..], B);
    }
  }

  /** Recording a path not yet in `meta` appends its entry. */
  lemma StoreAllStep(meta: seq<Entry>, M: seq<Entry>)
    requires M != [] && M[0].key !in KeysOf(meta)
    ensures StoreAll(meta, M) == StoreAll(meta + [M[0]], M[1..])
  {
    StoreNew(meta, M[0].key, M[0].val);
  }

  /** Path `i` of `M` is in neither `meta` nor the paths before it. */
  lemma FreshAt(meta: seq<Entry>, M: seq<Entry>, i: nat)
    requires DistinctKeys(meta + M) && i < |M|
    ensures M[i].key !in KeysOf(meta + M[..i])
  {
    var P := meta + M[..i];
    forall a | 0 <= a < |P| ensures KeysOf(P)[a] != M[i].key {
      assert P[a] == (meta + M)[a] && M[i] == (meta + M)[|meta| + i];
    }
  }

  lemma SplitStep(meta: seq<Entry>, M: seq<Entry>, i: nat)
    requires i < |M|
    ensures (meta + M[..i]) + [M[i..][0]] == meta + M[..i + 1] && M[i..][1..] == M[i + 1..]
  {
    assert M[..i + 1] == M[..i] + [M[i]];
  }

  lemma {:induction false} StoreAllFrom(meta: seq<Entry>, M: seq<Entry>, i: nat)
    requires DistinctKeys(meta + M) && i <= |M|
    ensures StoreAll(meta + M[..i], M[i..]) == meta + M
    decreases |M| - i
  {
    if i == |M| {
      assert M[..i] == M && M[i..] == [];
    } else {
      FreshAt(meta, M, i);
      StoreAllStep(meta + M[..i], M[i..]);
      SplitStep(meta, M, i);
      StoreAllFrom(meta, M, i + 1);
    }
  }

  /** When no recorded path repeats one already in `meta` or in `M`, every assignment adds a new entry last. */
  lemma StoreAllNew(meta: seq<Entry>, M: seq<Entry>)
    requires DistinctKeys(meta + M)
    ensures StoreAll(meta, M) == meta + M
  {
    StoreAllFrom(meta, M, 0);
    assert meta + M[..0] == meta && M[0..] == M;
  }

  /** The wire forms of the items from `i` on. */
  function WireItems(xs: seq<Value>, i: nat, dc: DateCodec): seq<Value>
    requires i <= |xs|
    decreases |xs| - i
  {
    if i == |xs| then [] else [Wire(xs[i], dc)] + WireItems(xs, i + 1, dc)
  }

  /** The entries from `i` on, each under its own key with its value on the wire. */
  function WireEntries(es: seq<Entry>, i: nat, dc: DateCodec): seq<Entry>
    requires i <= |es|
    decreases |es| - i
  {
    if i == |es| then [] else [Entry(es[i].key, Wire(es[i].val, dc))] + WireEntries(es, i + 1, dc)
  }

  lemma {:induction false} WireItemsAt(xs: seq<Value>, i: nat, dc: DateCodec)
    requires i <= |xs|
    ensures |WireItems(xs, i, dc)| == |xs| - i
    ensures forall j :: 0 <= j < |xs| - i ==> WireItems(xs, i, dc)[j] == Wire(xs[i + j], dc)
    decreases |xs| - i
  {
    if i < |xs| {
      WireItemsAt(xs, i + 1, dc);
    }
  }

  lemma {:induction false} WireEntriesAt(es: seq<Entry>, i: nat, dc: DateCodec)
    requires i <= |es|
    ensures |WireEntries(es, i, dc)| == |es| - i
    ensures forall j :: 0 <= j < |es| - i ==> WireEntries(es, i, dc)[j] == Entry(es[i + j].key, Wire(es[i + j].val, dc))
    decreases |es| - i
  {
    if i < |es| {
      WireEntriesAt(es, i + 1, dc);
    }
  }

  /**
   * `_recursion(node, keys)` returns `Wire(node)` and assigns `meta[path] = [tag]`
   * for each typed leaf of `node`, in visiting order, at the leaf's dotted path.
   * Nothing is required of the dict keys: a dotted key that joins to another
   * leaf's path overwrites that entry of `meta`.
   */
  lemma {:induction false} FormatNodeLeaves(node: Value, keys: seq<string>, meta: seq<Entry>, dc: DateCodec)
    requires keys != [] || FormatterTag(node).None?
    ensures FormatNode(node, keys, meta, dc) == (Wire(node, dc), StoreAll(meta, MetaOf(Above(keys, Leaves(node)))))
    decreases node, 1
  {
    if node.List? {
      var xs := node.items;
      FormatItemsLeaves(xs, keys, 0, meta, dc);
      WireItemsAt(xs, 0, dc);
      assert WireItems(xs, 0, dc) == seq(|xs|, i requires 0 <= i < |xs| => Wire(xs[i], dc));
    } else if node.Dict? {
      var es := node.entries;
      FormatEntriesLeaves(es, keys, 0, meta, dc);
      WireEntriesAt(es, 0, dc);
      assert WireEntries(es, 0, dc) == seq(|es|, i requires 0 <= i < |es| => Entry(es[i].key, Wire(es[i].val, dc)));
    } else {
      FormatLeaf(node, keys, meta, dc);
    }
  }

  /** A leaf is written as it is, or, when typed, formatted and recorded at its own path. */
  lemma FormatLeaf(node: Value, keys: seq<string>, meta: seq<Entry>, dc: DateCodec)
    requires !node.List? && !node.Dict?
    requires keys != [] || FormatterTag(node).None?
    ensures FormatNode(node, keys, meta, dc) == (Wire(node, dc), StoreAll(meta, MetaOf(Above(keys, Leaves(node)))))
  {
    if FormatterTag(node).Some? {
      var tag := FormatterTag(node).value;
      var e := Entry(JoinPath(keys), TagList(tag));
      assert Above(keys, Leaves(node)) == [Leaf(keys, tag)] by { assert keys + [] == keys; }
      assert MetaOf(Above(keys, Leaves(node))) == [e];
      assert StoreAll(meta, [e]) == StoreAll(Store(meta, e.key, e.val), []);
    } else {
      assert MetaOf(Above(keys, Leaves(node))) == [];
    }
  }

  /** Past the last item nothing is written and nothing is recorded. */
  lemma FormatItemsDone(xs: seq<Value>, keys: seq<string>, meta: seq<Entry>, dc: DateCodec)
    ensures FormatItems(xs, keys, |xs|, meta, dc) == ([], meta)
    ensures MetaOf(Above(keys, ItemLeaves(xs, |xs|))) == []
  {
    assert ItemLeaves(xs, |xs|) == [];
  }

  /** Past the last entry nothing is written and nothing is recorded. */
  lemma FormatEntriesDone(es: seq<Entry>, keys: seq<string>, meta: seq<Entry>, dc: DateCodec)
    ensures FormatEntries(es, keys, |es|, meta, dc) == ([], meta)
    ensures MetaOf(Above(keys, EntryLeaves(es, |es|))) == []
  {
    assert EntryLeaves(es, |es|) == [];
  }

  /** The entries recorded from item `i` on: those of item `i`, then those of the items after it. */
  lemma ItemsMetaStep(xs: seq<Value>, keys: seq<string>, i: nat)
    requires i < |xs|
    ensures MetaOf(Above(keys, ItemLeaves(xs, i)))
         == MetaOf(Above(keys + [DecimalString(i)], Leaves(xs[i]))) + MetaOf(Above(keys, ItemLeaves(xs, i + 1)))
  {
    var seg := DecimalString(i);
    assert ItemLeaves(xs, i) == Under(seg, Leaves(xs[i])) + ItemLeaves(xs, i + 1);
    AboveUnder(keys, seg, Leaves(xs[i]));
    AboveConcat(keys, Under(seg, Leaves(xs[i])), ItemLeaves(xs, i + 1));
    MetaConcat(Above(keys + [seg], Leaves(xs[i])), Above(keys, ItemLeaves(xs, i + 1)));
  }

  /** The entries recorded from entry `i` on: those of entry `i`, then those of the entries after it. */
  lemma EntriesMetaStep(es: seq<Entry>, keys: seq<string>, i: nat)
    requires i < |es|
    ensures MetaOf(Above(keys, EntryLeaves(es, i)))
         == MetaOf(Above(keys + [es[i].key], Leaves(es[i].val))) + MetaOf(Above(keys, EntryLeaves(es, i + 1)))
  {
    var seg := es[i].key;
    assert EntryLeaves(es, i) == Under(seg, Leaves(es[i].val)) + EntryLeaves(es, i + 1);
    AboveUnder(keys, seg, Leaves(es[i].val));
    AboveConcat(keys, Under(seg, Leaves(es[i].val)), EntryLeaves(es, i + 1));
    MetaConcat(Above(keys + [seg], Leaves(es[i].val)), Above(keys, EntryLeaves(es, i + 1)));
  }

  lemma {:induction false} FormatItemsLeaves(xs: seq<Value>, keys: seq<string>, i: nat, meta: seq<Entry>, dc: DateCodec)
    requires i <= |xs|
    ensures FormatItems(xs, keys, i, meta, dc)
         == (WireItems(xs, i, dc), StoreAll(meta, MetaOf(Above(keys, ItemLeaves(xs, i)))))
    decreases xs, |xs| - i
  {
    if i == |xs| {
      FormatItemsDone(xs, keys, meta, dc);
    } else {
      var seg := DecimalString(i);
      var MA := MetaOf(Above(keys + [seg], Leaves(xs[i])));
      var MB := MetaOf(Above(keys, ItemLeaves(xs, i + 1)));
      ItemsMetaStep(xs, keys, i);
      StoreAllConcat(meta, MA, MB);
      var M1 := StoreAll(meta, MA);
      FormatNodeLeaves(xs[i], keys + [seg], meta, dc);
      FormatItemsLeaves(xs, keys, i + 1, M1, dc);
      var rest := WireItems(xs, i + 1, dc);
      assert FormatItems(xs, keys, i + 1, M1, dc) == (rest, StoreAll(M1, MB));
      assert FormatItems(xs, keys, i, meta, dc) == ([Wire(xs[i], dc)] + rest, StoreAll(M1, MB));
    }
  }

  lemma {:induction false} FormatEntriesLeaves(es: seq<Entry>, keys: seq<string>, i: nat, meta: seq<Entry>, dc: DateCodec)
    requires i <= |es|
    ensures FormatEntries(es, keys, i, meta, dc)
         == (WireEntries(es, i, dc), StoreAll(meta, MetaOf(Above(keys, EntryLeaves(es, i)))))
    decreases es, |es| - i
  {
    if i == |es| {
      FormatEntriesDone(es, keys, meta, dc);
    } else {
      var seg := es[i].key;
      var MA := MetaOf(Above(keys + [seg], Leaves(es[i].val)));
      var MB := MetaOf(Above(keys, EntryLeaves(es, i + 1)));
      EntriesMetaStep(es, keys, i);
      StoreAllConcat(meta, MA, MB);
      var M1 := StoreAll(meta, MA);
      FormatNodeLeaves(es[i].val, keys + [seg], meta, dc);
      FormatEntriesLeaves(es, keys, i + 1, M1, dc);
      var rest := WireEntries(es, i + 1, dc);
      assert FormatEntries(es, keys, i + 1, M1, dc) == (rest, StoreAll(M1, MB));
      assert FormatEntries(es, keys, i, meta, dc) == ([Entry(seg, Wire(es[i].val, dc))] + rest, StoreAll(M1, MB));
    }
  }

  // ---------------------------------------------------------------------------
  // The recorded paths are distinct and split back into their segments
  // ---------------------------------------------------------------------------

  lemma DecimalDotFree(n: nat)
    ensures DotFree(DecimalString(n))
  {
    var s := DecimalString(n);
    forall i | 0 <= i < |s| ensures s[i] != '.' {
      assert IsDigit(s[i]);
    }
  }

  lemma UnderConcatPaths(seg: string, L: seq<Leaf>, R: seq<Leaf>)
    requires DotFree(seg) && DotFreePaths(L) && DistinctPaths(L)
    requires DotFreePaths(R) && DistinctPaths(R) && NonemptyPaths(R)
    requires forall j :: 0 <= j < |R| ==> R[j].path[0] != seg
    ensures DotFreePaths(Under(seg, L) + R) && DistinctPaths(Under(seg, L) + R)
  {
    var U := Under(seg, L);
    var W := U + R;
    forall j, s | 0 <= j < |W| && 0 <= s < |W[j].path| ensures DotFree(W[j].path[s]) {
      if j < |U| {
        assert W[j].path == [seg] + L[j].path;
        if s > 0 {
          assert W[j].path[s] == L[j].path[s - 1];
        }
      } else {
        assert W[j] == R[j - |U|];
      }
    }
    forall a, b | 0 <= a < b < |W| ensures W[a].path != W[b].path {
      if b < |U| {
        assert W[a].path[1..] == L[a].path && W[b].path[1..] == L[b].path;
      } else if a < |U| {
        assert W[a].path[0] == seg && W[b] == R[b - |U|];
      } else {
        assert W[a] == R[a - |U|] && W[b] == R[b - |U|];
      }
    }
  }

  lemma {:induction false} ItemLeavesAvoid(xs: seq<Value>, i: nat, k: string)
    requires i <= |xs|
    requires forall m :: i <= m < |xs| ==> DecimalString(m) != k
    ensures forall j :: 0 <= j < |ItemLeaves(xs, i)| ==> ItemLeaves(xs, i)[j].path[0] != k
    decreases |xs| - i
  {
    if i < |xs| {
      ItemLeavesAvoid(xs, i + 1, k);
      var U := Under(DecimalString(i), Leaves(xs[i]));
      forall j | 0 <= j < |ItemLeaves(xs, i)| ensures ItemLeaves(xs, i)[j].path[0] != k {
        if j < |U| {
          assert ItemLeaves(xs, i)[j] == U[j];
        } else {
          assert ItemLeaves(xs, i)[j] == ItemLeaves(xs, i + 1)[j - |U|];
        }
      }
    }
  }

  lemma {:induction false} EntryLeavesAvoid(es: seq<Entry>, i: nat, k: string)
    requires i <= |es|
    requires forall m :: i <= m < |es| ==> es[m].key != k
    ensures forall j :: 0 <= j < |EntryLeaves(es, i)| ==> EntryLeaves(es, i)[j].path[0] != k
    decreases |es| - i
  {
    if i < |es| {
      EntryLeavesAvoid(es, i + 1, k);
      var U := Under(es[i].key, Leaves(es[i].val));
      forall j | 0 <= j < |EntryLeaves(es, i)| ensures EntryLeaves(es, i)[j].path[0] != k {
        if j < |U| {
          assert EntryLeaves(es, i)[j] == U[j];
        } else {
          assert EntryLeaves(es, i)[j] == EntryLeaves(es, i + 1)[j - |U|];
        }
      }
    }
  }

  /** No two typed leaves of an encodable value share a path, and no segment holds a dot. */
  lemma {:induction false} LeafPaths(v: Value)
    requires KeysSafe(v)
    ensures DotFreePaths(Leaves(v)) && DistinctPaths(Leaves(v))
    decreases v, 1
  {
    if v.List? {
      ItemPaths(v.items, 0);
    } else if v.Dict? {
      EntryPaths(v.entries, 0);
    }
  }

  lemma {:induction false} ItemPaths(xs: seq<Value>, i: nat)
    requires i <= |xs| && KeysSafe(List(xs))
    ensures DotFreePaths(ItemLeaves(xs, i)) && DistinctPaths(ItemLeaves(xs, i))
    decreases xs, |xs| - i
  {
    if i < |xs| {
      LeafPaths(xs[i]);
      ItemPaths(xs, i + 1);
      forall m | i + 1 <= m < |xs| ensures DecimalString(m) != DecimalString(i) {
        if DecimalString(m) == DecimalString(i) {
          DecimalInjective(m, i);
        }
      }
      ItemLeavesAvoid(xs, i + 1, DecimalString(i));
      DecimalDotFree(i);
      UnderConcatPaths(DecimalString(i), Leaves(xs[i]), ItemLeaves(xs, i + 1));
    }
  }

  lemma {:induction false} EntryPaths(es: seq<Entry>, i: nat)
    requires i <= |es| && KeysSafe(Dict(es))
    ensures DotFreePaths(EntryLeaves(es, i)) && DistinctPaths(EntryLeaves(es, i))
    decreases es, |es| - i
  {
    if i < |es| {
      LeafPaths(es[i].val);
      EntryPaths(es, i + 1);
      EntryLeavesAvoid(es, i + 1, es[i].key);
      UnderConcatPaths(es[i].key, Leaves(es[i].val), EntryLeaves(es, i + 1));
    }
  }

  /** Distinct dot-free paths give distinct `meta.values` keys. */
  lemma MetaDistinct(L: seq<Leaf>)
    requires NonemptyPaths(L) && DotFreePaths(L) && DistinctPaths(L)
    ensures DistinctKeys(MetaOf(L))
  {
    forall a, b | 0 <= a < b < |L| ensures MetaOf(L)[a].key != MetaOf(L)[b].key {
      if JoinPath(L[a].path) == JoinPath(L[b].path) {
        JoinInjective(L[a].path, L[b].path);
      }
    }
  }

  // ---------------------------------------------------------------------------
  // Decoding
  // ---------------------------------------------------------------------------

  /** Applying the parsers for `L` one leaf after another, as the loop over `meta.values` does. */
  function Steps(t: Value, L: seq<Leaf>, dc: DateCodec, indexLast: bool): Result<Value>
    requires NonemptyPaths(L)
    decreases |L|
  {
    if L == [] then Ok(t)
    else
      var t' :- ApplyAt(t, L[0].path, TagList(L[0].tag), dc, indexLast);
      Steps(t', L[1..], dc, indexLast)
  }

  /** The loop over the recorded entries is the loop over the leaves they record. */
  lemma {:induction false} ApplyEntriesSteps(t: Value, L: seq<Leaf>, dc: DateCodec, indexLast: bool)
    requires NonemptyPaths(L) && DotFreePaths(L)
    ensures ApplyEntries(t, MetaOf(L), dc, indexLast) == Steps(t, L, dc, indexLast)
    decreases |L|
  {
    if L != [] {
      SplitJoin(L[0].path);
      assert MetaOf(L)[1..] == MetaOf(L[1..]);
      match ApplyAt(t, L[0].path, TagList(L[0].tag), dc, indexLast)
      case Ok(t1) => ApplyEntriesSteps(t1, L[1..], dc, indexLast);
      case Err(_) =>
    }
  }

  lemma {:induction false} StepsConcat(t: Value, A: seq<Leaf>, B: seq<Leaf>, dc: DateCodec, indexLast: bool)
    requires NonemptyPaths(A) && NonemptyPaths(B)
    ensures NonemptyPaths(A + B)
    ensures Steps(t, A + B, dc, indexLast) == (var t' :- Steps(t, A, dc, indexLast); Steps(t', B, dc, indexLast))
    decreases |A|
  {
    if A == [] {
      assert A + B == B;
    } else {
      assert (A + B)[0] == A[0] && (A + B)[1..] == A[1..] + B;
      match ApplyAt(t, A[0].path, TagList(A[0].tag), dc, indexLast)
      case Ok(t1) => StepsConcat(t1, A[1..], B, dc, indexLast);
      case Err(_) =>
    }
  }

  lemma DistinctKeysUpdate(F: seq<Entry>, j: nat, x: Value)
    requires DistinctKeys(F) && j < |F|
    ensures DistinctKeys(F[j := Entry(F[j].key, x)])
  {
    var F1 := F[j := Entry(F[j].key, x)];
    forall a, b | 0 <= a < b < |F1| ensures F1[a].key != F1[b].key {
      assert F1[a].key == F[a].key && F1[b].key == F[b].key;
    }
  }

  /** A path through key `F[j].key` of a dict changes that entry's value, in place. */
  lemma ApplyInDict(F: seq<Entry>, j: nat, path: seq<string>, tv: Value, dc: DateCodec, indexLast: bool)
    requires DistinctKeys(F) && j < |F| && path != []
    ensures ApplyAt(Dict(F), [F[j].key] + path, tv, dc, indexLast)
         == (var c :- ApplyAt(F[j].val, path, tv, dc, indexLast); Ok(Dict(F[j := Entry(F[j].key, c)])))
  {
    var segs := [F[j].key] + path;
    assert segs[0] == F[j].key && segs[1..] == path;
    LookupAt(F, j);
    assert Subscript(Dict(F), Name(F[j].key)) == Ok(F[j].val);
    match ApplyAt(F[j].val, path, tv, dc, indexLast)
    case Ok(c1) => StoreAt(F, j, c1);
    case Err(_) =>
  }

  /** A path through index `i` of a list changes that item, in place. */
  lemma ApplyInList(ys: seq<Value>, i: nat, path: seq<string>, tv: Value, dc: DateCodec, indexLast: bool)
    requires i < |ys| && path != []
    ensures ApplyAt(List(ys), [DecimalString(i)] + path, tv, dc, indexLast)
         == (var c :- ApplyAt(ys[i], path, tv, dc, indexLast); Ok(List(ys[i := c])))
  {
    var segs := [DecimalString(i)] + path;
    assert segs[0] == DecimalString(i) && segs[1..] == path;
    ParseDecimal(i);
    assert SegmentKey(List(ys), DecimalString(i)) == Ok(Index(i));
  }

  /** Leaves under key `F[j].key` of a dict are applied to that entry's value, in place. */
  lemma {:induction false} StepsUnderDict(F: seq<Entry>, j: nat, L: seq<Leaf>, dc: DateCodec, indexLast: bool)
    requires DistinctKeys(F) && j < |F| && NonemptyPaths(L)
    ensures Steps(Dict(F), Under(F[j].key, L), dc, indexLast)
         == (var c :- Steps(F[j].val, L, dc, indexLast); Ok(Dict(F[j := Entry(F[j].key, c)])))
    decreases |L|
  {
    var k := F[j].key;
    if L == [] {
      assert F[j := Entry(k, F[j].val)] == F;
    } else {
      var U := Under(k, L);
      var tv := TagList(L[0].tag);
      assert U[0] == Leaf([k] + L[0].path, L[0].tag);
      assert U[1..] == Under(k, L[1..]);
      ApplyInDict(F, j, L[0].path, tv, dc, indexLast);
      match ApplyAt(F[j].val, L[0].path, tv, dc, indexLast)
      case Err(e) =>
      case Ok(c1) =>
        var F1 := F[j := Entry(k, c1)];
        DistinctKeysUpdate(F, j, c1);
        StepsUnderDict(F1, j, L[1..], dc, indexLast);
        match Steps(c1, L[1..], dc, indexLast)
        case Ok(c) =>
          assert F1[j := Entry(k, c)] == F[j := Entry(k, c)];
        case Err(_) =>
    }
  }

  /** Leaves under index `i` of a list are applied to that item, in place. */
  lemma {:induction false} StepsUnderList(ys: seq<Value>, i: nat, L: seq<Leaf>, dc: DateCodec, indexLast: bool)
    requires i < |ys| && NonemptyPaths(L)
    ensures Steps(List(ys), Under(DecimalString(i), L), dc, indexLast)
         == (var c :- Steps(ys[i], L, dc, indexLast); Ok(List(ys[i := c])))
    decreases |L|
  {
    var k := DecimalString(i);
    if L == [] {
      assert ys[i := ys[i]] == ys;
    } else {
      var U := Under(k, L);
      var tv := TagList(L[0].tag);
      assert U[0] == Leaf([k] + L[0].path, L[0].tag);
      assert U[1..] == Under(k, L[1..]);
      ApplyInList(ys, i, L[0].path, tv, dc, indexLast);
      match ApplyAt(ys[i], L[0].path, tv, dc, indexLast)
      case Err(e) =>
      case Ok(c1) =>
        var ys1 := ys[i := c1];
        StepsUnderList(ys1, i, L[1..], dc, indexLast);
        match Steps(c1, L[1..], dc, indexLast)
        case Ok(c) =>
          assert ys1[i := c] == ys[i := c];
        case Err(_) =>
    }
  }

  /** The registered parser undoes the formatter of a typed leaf. */
  lemma ParserRestores(v: Value, dc: DateCodec)
    requires FormatterTag(v).Some? && DatesRoundTrip(dc)
    ensures TagParser(TagList(FormatterTag(v).value)) == Ok(if v.Date? then DateParser else UndefinedParser)
    ensures RunParser(if v.Date? then DateParser else UndefinedParser, Formatted(v, dc), dc) == Restored(v)
  {
  }

  lemma UnderTyped(seg: string, v: Value)
    requires FormatterTag(v).Some?
    ensures Under(seg, Leaves(v)) == [Leaf([seg], FormatterTag(v).value)]
  {
    var tag := FormatterTag(v).value;
    assert Leaves(v) == [Leaf([], tag)];
    assert Under(seg, Leaves(v))[0] == Leaf([seg] + [], tag);
    assert [seg] + [] == [seg];
    assert |Under(seg, Leaves(v))| == 1;
  }

  /** The loop over one leaf is one application. */
  lemma StepsOne(t: Value, l: Leaf, dc: DateCodec, indexLast: bool)
    requires l.path != []
    ensures Steps(t, [l], dc, indexLast) == ApplyAt(t, l.path, TagList(l.tag), dc, indexLast)
  {
    assert [l][1..] == [];
  }

  /** A typed leaf under a dict key is parsed back in place. */
  lemma TypedUnderDict(F: seq<Entry>, j: nat, v: Value, dc: DateCodec, indexLast: bool)
    requires DistinctKeys(F) && j < |F| && FormatterTag(v).Some? && DatesRoundTrip(dc)
    requires F[j].val == Formatted(v, dc)
    ensures Steps(Dict(F), Under(F[j].key, Leaves(v)), dc, indexLast) == Ok(Dict(F[j := Entry(F[j].key, Restored(v))]))
  {
    var k := F[j].key;
    var tag := FormatterTag(v).value;
    UnderTyped(k, v);
    ParserRestores(v, dc);
    ApplyLastInDict(F, j, if v.Date? then DateParser else UndefinedParser, dc, indexLast);
    StepsOne(Dict(F), Leaf([k], tag), dc, indexLast);
  }

  /** The last segment naming a key of a dict runs the parser on that entry, in place. */
  lemma ApplyLastInDict(F: seq<Entry>, j: nat, p: Parser, dc: DateCodec, indexLast: bool)
    requires DistinctKeys(F) && j < |F|
    ensures forall tv :: TagParser(tv) == Ok(p) ==>
      ApplyAt(Dict(F), [F[j].key], tv, dc, indexLast) == Ok(Dict(F[j := Entry(F[j].key, RunParser(p, F[j].val, dc))]))
  {
    var k := F[j].key;
    var x := RunParser(p, F[j].val, dc);
    LookupAt(F, j);
    StoreAt(F, j, x);
    assert SegmentKey(Dict(F), k) == Ok(Name(k));
    assert Subscript(Dict(F), Name(k)) == Ok(F[j].val);
    assert Assign(Dict(F), Name(k), x) == Ok(Dict(F[j := Entry(k, x)]));
  }

  /** With the last segment read as an index, a typed leaf directly in a list is parsed back in place. */
  lemma TypedUnderList(ys: seq<Value>, i: nat, v: Value, dc: DateCodec)
    requires i < |ys| && FormatterTag(v).Some? && DatesRoundTrip(dc)
    requires ys[i] == Formatted(v, dc)
    ensures Steps(List(ys), Under(DecimalString(i), Leaves(v)), dc, true) == Ok(List(ys[i := Restored(v)]))
  {
    var k := DecimalString(i);
    UnderTyped(k, v);
    ParserRestores(v, dc);
    ParseDecimal(i);
    assert SegmentKey(List(ys), k) == Ok(Index(i));
    assert ApplyAt(List(ys), [k], TagList(FormatterTag(v).value), dc, true) == Ok(List(ys[i := Restored(v)]));
  }

  /** The list whose first `i` items are decoded and whose other items are still on the wire. */
  function MixItems(xs: seq<Value>, i: nat, dc: DateCodec): seq<Value>
    requires i <= |xs|
  {
    seq(|xs|, m requires 0 <= m < |xs| => if m < i then Restored(xs[m]) else Wire(xs[m], dc))
  }

  /** The dict whose first `i` entries are decoded and whose other entries are still on the wire. */
  function MixEntries(es: seq<Entry>, i: nat, dc: DateCodec): seq<Entry>
    requires i <= |es|
  {
    seq(|es|, m requires 0 <= m < |es| => Entry(es[m].key, if m < i then Restored(es[m].val) else Wire(es[m].val, dc)))
  }

  /** Decoding the wire form of a value that is not itself typed, with the parsers for its leaves, restores it. */
  lemma {:induction false} DecodeNode(v: Value, dc: DateCodec, indexLast: bool)
    requires KeysSafe(v) && (indexLast || NoTypedItems(v)) && FormatterTag(v).None? && DatesRoundTrip(dc)
    ensures Steps(Wire(v, dc), Leaves(v), dc, indexLast) == Ok(Restored(v))
    decreases v, 1
  {
    if v.List? {
      var xs := v.items;
      assert Leaves(v) == ItemLeaves(xs, 0);
      DecodeItems(xs, 0, dc, indexLast);
      MixItemsEnds(xs, dc);
    } else if v.Dict? {
      var es := v.entries;
      assert Leaves(v) == EntryLeaves(es, 0);
      DecodeEntries(es, 0, dc, indexLast);
      MixEntriesEnds(es, dc);
    }
  }

  /** Before the first item the list is all wire form; after the last it is all decoded. */
  lemma MixItemsEnds(xs: seq<Value>, dc: DateCodec)
    ensures List(MixItems(xs, 0, dc)) == Wire(List(xs), dc)
    ensures List(MixItems(xs, |xs|, dc)) == Restored(List(xs))
  {
  }

  /** Before the first entry the dict is all wire form; after the last it is all decoded. */
  lemma MixEntriesEnds(es: seq<Entry>, dc: DateCodec)
    ensures Dict(MixEntries(es, 0, dc)) == Wire(Dict(es), dc)
    ensures Dict(MixEntries(es, |es|, dc)) == Restored(Dict(es))
  {
  }

  /** Decoding the leaves of item `i` turns it back from its wire form, in place. */
  /** Restoring item `i` moves the boundary one item on. */
  lemma MixItemsNext(xs: seq<Value>, i: nat, dc: DateCodec)
    requires i < |xs|
    ensures MixItems(xs, i, dc)[i := Restored(xs[i])] == MixItems(xs, i + 1, dc)
  {
  }

  /** Restoring entry `i` moves the boundary one entry on. */
  lemma MixEntriesNext(es: seq<Entry>, i: nat, dc: DateCodec)
    requires i < |es|
    ensures MixEntries(es, i, dc)[i := Entry(es[i].key, Restored(es[i].val))] == MixEntries(es, i + 1, dc)
  {
  }

  lemma DecodeItemStep(xs: seq<Value>, i: nat, dc: DateCodec, indexLast: bool)
    requires i < |xs| && KeysSafe(List(xs)) && (indexLast || NoTypedItems(List(xs))) && DatesRoundTrip(dc)
    ensures Steps(List(MixItems(xs, i, dc)), Under(DecimalString(i), Leaves(xs[i])), dc, indexLast)
         == Ok(List(MixItems(xs, i + 1, dc)))
    decreases xs, 0
  {
    var M := MixItems(xs, i, dc);
    var v := xs[i];
    if indexLast && FormatterTag(v).Some? {
      TypedUnderList(M, i, v, dc);
    } else {
      StepsUnderList(M, i, Leaves(v), dc, indexLast);
      DecodeNode(v, dc, indexLast);
    }
    MixItemsNext(xs, i, dc);
  }

  lemma {:induction false} DecodeItems(xs: seq<Value>, i: nat, dc: DateCodec, indexLast: bool)
    requires i <= |xs| && KeysSafe(List(xs)) && (indexLast || NoTypedItems(List(xs))) && DatesRoundTrip(dc)
    ensures Steps(List(MixItems(xs, i, dc)), ItemLeaves(xs, i), dc, indexLast) == Ok(List(MixItems(xs, |xs|, dc)))
    decreases xs, |xs| - i
  {
    if i < |xs| {
      assert ItemLeaves(xs, i) == Under(DecimalString(i), Leaves(xs[i])) + ItemLeaves(xs, i + 1);
      StepsConcat(List(MixItems(xs, i, dc)), Under(DecimalString(i), Leaves(xs[i])), ItemLeaves(xs, i + 1), dc, indexLast);
      DecodeItemStep(xs, i, dc, indexLast);
      DecodeItems(xs, i + 1, dc, indexLast);
    }
  }

  /** Decoding keeps the keys of a dict, so they stay distinct. */
  lemma MixEntriesDistinct(es: seq<Entry>, i: nat, dc: DateCodec)
    requires i <= |es| && DistinctKeys(es)
    ensures DistinctKeys(MixEntries(es, i, dc))
  {
    var M := MixEntries(es, i, dc);
    forall a, b | 0 <= a < b < |M| ensures M[a].key != M[b].key {
      assert M[a].key == es[a].key && M[b].key == es[b].key;
    }
  }

  /** Decoding the leaves of entry `i` turns its value back from its wire form, in place. */
  lemma DecodeEntryStep(es: seq<Entry>, i: nat, dc: DateCodec, indexLast: bool)
    requires i < |es| && KeysSafe(Dict(es)) && (indexLast || NoTypedItems(Dict(es))) && DatesRoundTrip(dc)
    ensures Steps(Dict(MixEntries(es, i, dc)), Under(es[i].key, Leaves(es[i].val)), dc, indexLast)
         == Ok(Dict(MixEntries(es, i + 1, dc)))
    decreases es, 0
  {
    var M := MixEntries(es, i, dc);
    var v := es[i].val;
    MixEntriesDistinct(es, i, dc);
    if FormatterTag(v).Some? {
      TypedUnderDict(M, i, v, dc, indexLast);
    } else {
      StepsUnderDict(M, i, Leaves(v), dc, indexLast);
      DecodeNode(v, dc, indexLast);
    }
    MixEntriesNext(es, i, dc);
  }

  lemma {:induction false} DecodeEntries(es: seq<Entry>, i: nat, dc: DateCodec, indexLast: bool)
    requires i <= |es| && KeysSafe(Dict(es)) && (indexLast || NoTypedItems(Dict(es))) && DatesRoundTrip(dc)
    ensures DistinctKeys(MixEntries(es, i, dc))
    ensures Steps(Dict(MixEntries(es, i, dc)), EntryLeaves(es, i), dc, indexLast) == Ok(Dict(MixEntries(es, |es|, dc)))
    decreases es, |es| - i
  {
    MixEntriesDistinct(es, i, dc);
    if i < |es| {
      assert EntryLeaves(es, i) == Under(es[i].key, Leaves(es[i].val)) + EntryLeaves(es, i + 1);
      StepsConcat(Dict(MixEntries(es, i, dc)), Under(es[i].key, Leaves(es[i].val)), EntryLeaves(es, i + 1), dc, indexLast);
      DecodeEntryStep(es, i, dc, indexLast);
      DecodeEntries(es, i + 1, dc, indexLast);
    }
  }

  // ---------------------------------------------------------------------------
  // The envelope
  // ---------------------------------------------------------------------------

  /** Recording at least one path leaves `meta` non-empty. */
  lemma {:induction false} StoreAllNonempty(meta: seq<Entry>, M: seq<Entry>)
    requires meta != [] || M != []
    ensures StoreAll(meta, M) != []
    decreases |M|
  {
    if M != [] {
      var s := Store(meta, M[0].key, M[0].val);
      assert Lookup(s, M[0].key).Some?;
      StoreAllNonempty(s, M[1..]);
    }
  }

  /** `req_data_format(v)` for a value whose root is not typed: `json` is the wire form,
      and `meta.values` records the typed leaves, in visiting order, present only when
      there is at least one. With safe keys it holds exactly one entry per typed leaf. */
  lemma FormatEnvelope(v: Value, dc: DateCodec)
    requires FormatterTag(v).None?
    ensures Leaves(v) == [] ==> Format(v, dc) == Dict([Entry("json", Wire(v, dc))])
    ensures Leaves(v) != [] ==>
      Format(v, dc) == Dict([Entry("json", Wire(v, dc)), Entry("meta", Dict([Entry("values", Dict(StoreAll([], MetaOf(Leaves(v)))))]))])
    ensures KeysSafe(v) ==> StoreAll([], MetaOf(Leaves(v))) == MetaOf(Leaves(v)) && DistinctKeys(MetaOf(Leaves(v)))
  {
    var L := Leaves(v);
    forall j | 0 <= j < |L| ensures Above([], L)[j] == L[j] {
      assert [] + L[j].path == L[j].path;
    }
    assert Above([], L) == L;
    FormatNodeLeaves(v, [], [], dc);
    if L != [] {
      StoreAllNonempty([], MetaOf(L));
    }
    if KeysSafe(v) {
      LeafPaths(v);
      MetaDistinct(L);
      assert [] + MetaOf(L) == MetaOf(L);
      StoreAllNew([], MetaOf(L));
    }
  }

  /** An envelope without `meta` decodes to its `json` unchanged. */
  lemma ParseBare(json: Value, dc: DateCodec, indexLast: bool)
    ensures ParseWith(Dict([Entry("json", json)]), dc, indexLast) == Ok(json)
  {
    var env := Dict([Entry("json", json)]);
    assert DictGet(env.entries, "meta") == Null;
    assert MetaValues(env) == Ok(Null);
  }

  /** A `meta.values` dict makes decoding apply each recorded entry in order. */
  lemma ParsePaths(json: Value, es: seq<Entry>, dc: DateCodec, indexLast: bool)
    requires es != []
    ensures ParseWith(Dict([Entry("json", json), Entry("meta", Dict([Entry("values", Dict(es))]))]), dc, indexLast)
         == ApplyEntries(json, es, dc, indexLast)
  {
    var meta := Dict([Entry("values", Dict(es))]);
    var env := Dict([Entry("json", json), Entry("meta", meta)]);
    assert "json"[0] != "meta"[0];
    assert env.entries[1..] == [Entry("meta", meta)];
    assert Lookup([Entry("meta", meta)], "meta") == Some(meta);
    assert Lookup(env.entries, "meta") == Lookup(env.entries[1..], "meta");
    assert DictGet(env.entries, "meta") == meta;
    assert MetaValues(env) == Ok(Dict(es));
  }

  /** A one-element `meta.values` list makes decoding apply that parser to the whole of `json`. */
  lemma ParseRoot(json: Value, tag: string, dc: DateCodec, indexLast: bool)
    ensures ParseWith(Dict([Entry("json", json), Entry("meta", Dict([Entry("values", TagList(tag))]))]), dc, indexLast)
         == (var p :- ParserNamed(Str(tag)); Ok(RunParser(p, json, dc)))
  {
    var meta := Dict([Entry("values", TagList(tag))]);
    var env := Dict([Entry("json", json), Entry("meta", meta)]);
    assert "json"[0] != "meta"[0];
    assert env.entries[1..] == [Entry("meta", meta)];
    assert Lookup([Entry("meta", meta)], "meta") == Some(meta);
    assert Lookup(env.entries, "meta") == Lookup(env.entries[1..], "meta");
    assert DictGet(env.entries, "meta") == meta;
    assert MetaValues(env) == Ok(TagList(tag));
  }

  /** `resp_data_parse(req_data_format(v))` restores `v` with every `undefined` read back
      as `None`, whichever way the last path segment is read, as long as, when it stays a
      string, no typed leaf sits directly in a list. */
  lemma RoundTripWith(v: Value, dc: DateCodec, indexLast: bool)
    requires KeysSafe(v) && (indexLast || NoTypedItems(v)) && DatesRoundTrip(dc)
    ensures ParseWith(Format(v, dc), dc, indexLast) == Ok(Restored(v))
  {
    if FormatterTag(v).Some? {
      ParserRestores(v, dc);
      ParseRoot(Formatted(v, dc), FormatterTag(v).value, dc, indexLast);
    } else {
      var L := Leaves(v);
      FormatEnvelope(v, dc);
      DecodeNode(v, dc, indexLast);
      if L == [] {
        ParseBare(Wire(v, dc), dc, indexLast);
      } else {
        LeafPaths(v);
        ParsePaths(Wire(v, dc), MetaOf(L), dc, indexLast);
        ApplyEntriesSteps(Wire(v, dc), L, dc, indexLast);
      }
    }
  }

  /** The round trip of the codec as written. */
  lemma RoundTrip(v: Value, dc: DateCodec)
    requires KeysSafe(v) && NoTypedItems(v) && DatesRoundTrip(dc)
    ensures Parse(Format(v, dc), dc) == Ok(Restored(v))
  {
    RoundTripWith(v, dc, false);
  }

  /** The round trip with the last path segment read as an index: typed list items come back too. */
  lemma RoundTripFixed(v: Value, dc: DateCodec)
    requires KeysSafe(v) && DatesRoundTrip(dc)
    ensures ParseFixed(Format(v, dc), dc) == Ok(Restored(v))
  {
    RoundTripWith(v, dc, true);
  }

  /** `req_data_format({'items': [d]})` records the datetime at path `items.0`. */
  lemma DateItemEnvelope(d: Instant, dc: DateCodec)
    ensures KeysSafe(Dict([Entry("items", List([Date(d)]))]))
    ensures Format(Dict([Entry("items", List([Date(d)]))]), dc)
         == Dict([Entry("json", Dict([Entry("items", List([Str(dc.format(d))]))])),
                  Entry("meta", Dict([Entry("values", Dict([Entry("items.0", TagList("Date"))]))]))])
  {
    var xs := [Date(d)];
    var v := Dict([Entry("items", List(xs))]);
    var zero := DecimalString(0);
    assert zero == "0";
    assert KeysSafe(v) by {
      assert DotFree("items");
    }
    assert Leaves(List(xs)) == [Leaf([zero], "Date")] by {
      UnderTyped(zero, Date(d));
      assert ItemLeaves(xs, 0) == Under(zero, Leaves(Date(d))) + [];
    }
    assert Leaves(v) == [Leaf(["items", zero], "Date")] by {
      assert EntryLeaves(v.entries, 0) == Under("items", Leaves(List(xs))) + [];
      assert ["items"] + [zero] == ["items", zero];
    }
    assert JoinPath(["items", zero]) == "items.0";
    assert MetaOf(Leaves(v)) == [Entry("items.0", TagList("Date"))];
    FormatEnvelope(v, dc);
    assert Wire(List(xs), dc) == List([Str(dc.format(d))]) by {
      assert Wire(Date(d), dc) == Str(dc.format(d));
    }
    assert Wire(v, dc) == Dict([Entry("items", List([Str(dc.format(d))]))]);
    assert Leaves(v) != [];
  }

  /** As written, a datetime directly in a list does not come back: its recorded path
      `items.0` ends in a segment that stays a string, and subscripting the list with it
      raises TypeError. */
  lemma TypedItemFails(d: Instant, dc: DateCodec)
    ensures Parse(Format(Dict([Entry("items", List([Date(d)]))]), dc), dc) == Err(TypeError)
  {
    var json := Dict([Entry("items", List([Str(dc.format(d))]))]);
    var es := [Entry("items.0", TagList("Date"))];
    DateItemEnvelope(d, dc);
    ParsePaths(json, es, dc, false);
    StringSegmentOnList(Str(dc.format(d)), dc);
    assert ApplyEntries(json, es, dc, false) == Err(TypeError);
  }

  lemma SplitItemPath()
    ensures SplitDots("items.0") == ["items", "0"]
  {
    assert JoinPath(["items", "0"]) == "items.0";
    SplitJoin(["items", "0"]);
  }

  lemma StringSegmentOnList(x: Value, dc: DateCodec)
    ensures ApplyAt(Dict([Entry("items", List([x]))]), SplitDots("items.0"), TagList("Date"), dc, false) == Err(TypeError)
  {
    SplitItemPath();
    var F := [Entry("items", List([x]))];
    LastSegmentOnList(x, dc);
    ApplyInDict(F, 0, ["0"], TagList("Date"), dc, false);
    assert [F[0].key] + ["0"] == ["items", "0"];
  }

  /** The last segment `'0'`, kept as a string, subscripts a list: TypeError. */
  lemma LastSegmentOnList(x: Value, dc: DateCodec)
    ensures ApplyAt(List([x]), ["0"], TagList("Date"), dc, false) == Err(TypeError)
  {
    assert TagList("Date").items[0] == Str("Date");
    assert TagParser(TagList("Date")).Ok?;
    assert Subscript(List([x]), Name("0")) == Err(TypeError);
  }

  /** Reading that last segment as an index restores the list of datetimes. */
  lemma TypedItemFixed(d: Instant, dc: DateCodec)
    requires DatesRoundTrip(dc)
    ensures ParseFixed(Format(Dict([Entry("items", List([Date(d)]))]), dc), dc) == Ok(Dict([Entry("items", List([Date(d)]))]))
  {
    var v := Dict([Entry("items", List([Date(d)]))]);
    DateItemEnvelope(d, dc);
    RoundTripFixed(v, dc);
    assert Restored(List([Date(d)])) == List([Date(d)]);
    assert Restored(v) == v;
  }
}
