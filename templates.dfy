/*
 * Request templates of civitai/client/client.py: `_replace_mark` rebuilds a
 * template, dropping every direct child that is `m_none` from dicts, lists and
 * tuples, and putting `v_mark` in place of every leaf that is the target mark.
 * `_replace_page` and `_replace_cursor` are its two uses.
 */
module Templates {
  import opened Values

  /** `m_none`: a child that is this mark is left out of the rebuilt container. */
  const Omit: Value := Mark(OmitMark)

  /** `_replace_mark(data, mark, v_mark)`: containers keep their kind; `v_mark` itself is never entered. */
  function ReplaceMark(data: Value, mark: Marker, vMark: Value): Value
    decreases data
  {
    match data
    case Dict(es) => Dict(ReplaceEntries(es, 0, [], mark, vMark))
    case List(xs) => List(ReplaceItems(xs, 0, [], mark, vMark))
    case Tuple(xs) => Tuple(ReplaceItems(xs, 0, [], mark, vMark))
    case _ => if data == Mark(mark) then vMark else data
  }

  /** The loop over a list or tuple, appending to `retval` from item `i` on. */
  function ReplaceItems(xs: seq<Value>, i: nat, retval: seq<Value>, mark: Marker, vMark: Value): seq<Value>
    requires i <= |xs|
    decreases xs, |xs| - i
  {
    if i == |xs| then retval
    else if xs[i] == Omit then ReplaceItems(xs, i + 1, retval, mark, vMark)
    else ReplaceItems(xs, i + 1, retval + [ReplaceMark(xs[i], mark, vMark)], mark, vMark)
  }

  /** The loop over `data.items()`, assigning `retval[key]` from entry `i` on. */
  function ReplaceEntries(es: seq<Entry>, i: nat, retval: seq<Entry>, mark: Marker, vMark: Value): seq<Entry>
    requires i <= |es|
    decreases es, |es| - i
  {
    if i == |es| then retval
    else if es[i].val == Omit then ReplaceEntries(es, i + 1, retval, mark, vMark)
    else ReplaceEntries(es, i + 1, Store(retval, es[i].key, ReplaceMark(es[i].val, mark, vMark)), mark, vMark)
  }

  /** `_replace_page(data, page)`: no page mark is left, since a page number holds none. */
  function ReplacePage(data: Value, page: int): (r: Value)
    ensures !Holds(r, PageMark)
  {
    NoLeak(data, PageMark, Int(page));
    ReplaceMark(data, PageMark, Int(page))
  }

  /** `_replace_cursor(data, cursor)`: no cursor mark is left unless the cursor itself holds one. */
  function ReplaceCursor(data: Value, cursor: Value): (r: Value)
    ensures !Holds(cursor, CursorMark) ==> !Holds(r, CursorMark)
  {
    if !Holds(cursor, CursorMark) then NoLeak(data, CursorMark, cursor); ReplaceMark(data, CursorMark, cursor)
    else ReplaceMark(data, CursorMark, cursor)
  }

  // ---------------------------------------------------------------------------
  // Reference descriptions
  // ---------------------------------------------------------------------------

  /** The items that are not `m_none`, in order. */
  function Kept(xs: seq<Value>): seq<Value> {
    if xs == [] then []
    else Kept(xs[..|xs| - 1]) + (if xs[|xs| - 1] == Omit then [] else [xs[|xs| - 1]])
  }

  /** The entries whose value is not `m_none`, in order. */
  function KeptEntries(es: seq<Entry>): seq<Entry> {
    if es == [] then []
    else KeptEntries(es[..|es| - 1]) + (if es[|es| - 1].val == Omit then [] else [es[|es| - 1]])
  }

  /** Exactly the items that are not `m_none` are kept. */
  lemma {:induction false} KeptMembers(xs: seq<Value>)
    ensures forall x :: x in Kept(xs) <==> x in xs && x != Omit
  {
    if xs != [] {
      var n := |xs| - 1;
      KeptMembers(xs[..n]);
      assert xs == xs[..n] + [xs[n]];
    }
  }

  /** Exactly the entries whose value is not `m_none` are kept. */
  lemma {:induction false} KeptEntriesMembers(es: seq<Entry>)
    ensures forall e :: e in KeptEntries(es) <==> e in es && e.val != Omit
  {
    if es != [] {
      var n := |es| - 1;
      KeptEntriesMembers(es[..n]);
      assert es == es[..n] + [es[n]];
    }
  }

  function MapReplace(xs: seq<Value>, mark: Marker, vMark: Value): seq<Value> {
    seq(|xs|, j requires 0 <= j < |xs| => ReplaceMark(xs[j], mark, vMark))
  }

  function MapReplaceEntries(es: seq<Entry>, mark: Marker, vMark: Value): seq<Entry> {
    seq(|es|, j requires 0 <= j < |es| => Entry(es[j].key, ReplaceMark(es[j].val, mark, vMark)))
  }

  /** Some leaf reachable through dicts, lists and tuples is the mark `m`. */
  predicate Holds(v: Value, m: Marker)
    decreases v
  {
    match v
    case Dict(es) => exists i :: 0 <= i < |es| && Holds(es[i].val, m)
    case List(xs) => exists i :: 0 <= i < |xs| && Holds(xs[i], m)
    case Tuple(xs) => exists i :: 0 <= i < |xs| && Holds(xs[i], m)
    case _ => v == Mark(m)
  }

  /** Every dict reachable through containers has distinct keys, as Python dicts do. */
  predicate WellFormed(v: Value)
    decreases v
  {
    match v
    case Dict(es) => DistinctKeys(es) && forall i :: 0 <= i < |es| ==> WellFormed(es[i].val)
    case List(xs) => forall i :: 0 <= i < |xs| ==> WellFormed(xs[i])
    case Tuple(xs) => forall i :: 0 <= i < |xs| ==> WellFormed(xs[i])
    case _ => true
  }

  /** No container reachable from `v` has `m_none` as a direct child. */
  predicate NoOmitChild(v: Value)
    decreases v
  {
    match v
    case Dict(es) => forall i :: 0 <= i < |es| ==> es[i].val != Omit && NoOmitChild(es[i].val)
    case List(xs) => forall i :: 0 <= i < |xs| ==> xs[i] != Omit && NoOmitChild(xs[i])
    case Tuple(xs) => forall i :: 0 <= i < |xs| ==> xs[i] != Omit && NoOmitChild(xs[i])
    case _ => true
  }

  // ---------------------------------------------------------------------------
  // The rebuild is filter-then-map
  // ---------------------------------------------------------------------------

  lemma {:induction false} ItemsFromPrefix(xs: seq<Value>, i: nat, mark: Marker, vMark: Value)
    requires i <= |xs|
    ensures ReplaceItems(xs, i, MapReplace(Kept(xs[..i]), mark, vMark), mark, vMark) == MapReplace(Kept(xs), mark, vMark)
    decreases |xs| - i
  {
    if i == |xs| {
      assert xs[..i] == xs;
    } else {
      var pre := Kept(xs[..i]);
      assert xs[..i + 1][..i] == xs[..i];
      if xs[i] == Omit {
        assert Kept(xs[..i + 1]) == pre + [];
        assert pre + [] == pre;
      } else {
        assert Kept(xs[..i + 1]) == pre + [xs[i]];
        assert MapReplace(pre, mark, vMark) + [ReplaceMark(xs[i], mark, vMark)]
            == MapReplace(pre + [xs[i]], mark, vMark);
      }
      ItemsFromPrefix(xs, i + 1, mark, vMark);
    }
  }

  /** A rebuilt list or tuple holds exactly its items that are not `m_none`, each rebuilt, in order. */
  lemma ItemsFilterMap(xs: seq<Value>, mark: Marker, vMark: Value)
    ensures ReplaceItems(xs, 0, [], mark, vMark) == MapReplace(Kept(xs), mark, vMark)
  {
    assert xs[..0] == [];
    ItemsFromPrefix(xs, 0, mark, vMark);
  }

  /** A key of an earlier kept entry is a key of an earlier entry, so not the key of entry `i`. */
  lemma {:induction false} KeptKeyFresh(es: seq<Entry>, i: nat, mark: Marker, vMark: Value)
    requires i < |es| && DistinctKeys(es)
    ensures es[i].key !in KeysOf(MapReplaceEntries(KeptEntries(es[..i]), mark, vMark))
  {
    var kept := KeptEntries(es[..i]);
    var acc := MapReplaceEntries(kept, mark, vMark);
    KeptEntriesMembers(es[..i]);
    forall a | 0 <= a < |acc| ensures KeysOf(acc)[a] != es[i].key {
      assert KeysOf(acc)[a] == kept[a].key;
      assert kept[a] in kept;
      assert kept[a] in es[..i];
      var b :| 0 <= b < i && es[..i][b] == kept[a];
      assert es[b].key != es[i].key;
    }
  }

  /** One turn of the dict loop: entry `i` is dropped, or appended under its fresh key. */
  lemma EntriesStep(es: seq<Entry>, i: nat, mark: Marker, vMark: Value)
    requires i < |es| && DistinctKeys(es)
    ensures ReplaceEntries(es, i, MapReplaceEntries(KeptEntries(es[..i]), mark, vMark), mark, vMark)
         == ReplaceEntries(es, i + 1, MapReplaceEntries(KeptEntries(es[..i + 1]), mark, vMark), mark, vMark)
  {
    var pre := KeptEntries(es[..i]);
    var acc := MapReplaceEntries(pre, mark, vMark);
    KeptEntriesLast(es, i);
    if es[i].val != Omit {
      var x := ReplaceMark(es[i].val, mark, vMark);
      KeptKeyFresh(es, i, mark, vMark);
      StoreNew(acc, es[i].key, x);
      MapReplaceEntriesAppend(pre, es[i], mark, vMark);
    }
  }

  /** The kept entries of one more entry. */
  lemma KeptEntriesLast(es: seq<Entry>, i: nat)
    requires i < |es|
    ensures es[i].val == Omit ==> KeptEntries(es[..i + 1]) == KeptEntries(es[..i])
    ensures es[i].val != Omit ==> KeptEntries(es[..i + 1]) == KeptEntries(es[..i]) + [es[i]]
  {
    assert es[..i + 1][..i] == es[..i];
    assert KeptEntries(es[..i]) + [] == KeptEntries(es[..i]);
  }

  lemma MapReplaceEntriesAppend(pre: seq<Entry>, e: Entry, mark: Marker, vMark: Value)
    ensures MapReplaceEntries(pre + [e], mark, vMark)
         == MapReplaceEntries(pre, mark, vMark) + [Entry(e.key, ReplaceMark(e.val, mark, vMark))]
  {
  }

  lemma {:induction false} EntriesFromPrefix(es: seq<Entry>, i: nat, mark: Marker, vMark: Value)
    requires i <= |es| && DistinctKeys(es)
    ensures ReplaceEntries(es, i, MapReplaceEntries(KeptEntries(es[..i]), mark, vMark), mark, vMark)
         == MapReplaceEntries(KeptEntries(es), mark, vMark)
    decreases |es| - i
  {
    if i == |es| {
      assert es[..i] == es;
    } else {
      EntriesStep(es, i, mark, vMark);
      EntriesFromPrefix(es, i + 1, mark, vMark);
    }
  }

  /** A rebuilt dict holds exactly its entries whose value is not `m_none`, each value rebuilt, in order. */
  lemma EntriesFilterMap(es: seq<Entry>, mark: Marker, vMark: Value)
    requires DistinctKeys(es)
    ensures ReplaceEntries(es, 0, [], mark, vMark) == MapReplaceEntries(KeptEntries(es), mark, vMark)
  {
    assert es[..0] == [];
    EntriesFromPrefix(es, 0, mark, vMark);
  }

  lemma {:induction false} KeptAll(xs: seq<Value>)
    requires forall j :: 0 <= j < |xs| ==> xs[j] != Omit
    ensures Kept(xs) == xs
  {
    if xs != [] {
      KeptAll(xs[..|xs| - 1]);
      assert xs[..|xs| - 1] + [xs[|xs| - 1]] == xs;
    }
  }

  lemma {:induction false} KeptEntriesAll(es: seq<Entry>)
    requires forall j :: 0 <= j < |es| ==> es[j].val != Omit
    ensures KeptEntries(es) == es
  {
    if es != [] {
      KeptEntriesAll(es[..|es| - 1]);
      assert es[..|es| - 1] + [es[|es| - 1]] == es;
    }
  }

  // ---------------------------------------------------------------------------
  // What the rebuild leaves behind
  // ---------------------------------------------------------------------------

  /** Once `v_mark` holds no target mark, neither does the rebuilt template, whatever the input. */
  lemma {:induction false} NoLeak(data: Value, m: Marker, vMark: Value)
    requires !Holds(vMark, m)
    ensures !Holds(ReplaceMark(data, m, vMark), m)
    decreases data
  {
    match data
    case Dict(es) => NoLeakEntries(es, 0, [], m, vMark);
    case List(xs) => NoLeakItems(xs, 0, [], m, vMark);
    case Tuple(xs) => NoLeakItems(xs, 0, [], m, vMark);
    case _ =>
  }

  lemma {:induction false} NoLeakItems(xs: seq<Value>, i: nat, acc: seq<Value>, m: Marker, vMark: Value)
    requires i <= |xs| && !Holds(vMark, m)
    requires forall y :: y in acc ==> !Holds(y, m)
    ensures forall y :: y in ReplaceItems(xs, i, acc, m, vMark) ==> !Holds(y, m)
    decreases xs, |xs| - i
  {
    if i < |xs| {
      if xs[i] == Omit {
        NoLeakItems(xs, i + 1, acc, m, vMark);
      } else {
        NoLeak(xs[i], m, vMark);
        NoLeakItems(xs, i + 1, acc + [ReplaceMark(xs[i], m, vMark)], m, vMark);
      }
    }
  }

  lemma {:induction false} NoLeakEntries(es: seq<Entry>, i: nat, acc: seq<Entry>, m: Marker, vMark: Value)
    requires i <= |es| && !Holds(vMark, m)
    requires forall e :: e in acc ==> !Holds(e.val, m)
    ensures forall e :: e in ReplaceEntries(es, i, acc, m, vMark) ==> !Holds(e.val, m)
    decreases es, |es| - i
  {
    if i < |es| {
      if es[i].val == Omit {
        NoLeakEntries(es, i + 1, acc, m, vMark);
      } else {
        var x := ReplaceMark(es[i].val, m, vMark);
        NoLeak(es[i].val, m, vMark);
        var acc' := Store(acc, es[i].key, x);
        StoreMembers(acc, es[i].key, x);
        NoLeakEntries(es, i + 1, acc', m, vMark);
      }
    }
  }

  /** Well-formed and free of `m_none` children: what a rebuild always produces. */
  predicate Clean(v: Value) {
    WellFormed(v) && NoOmitChild(v)
  }

  /** The rebuilt template has distinct dict keys and no `m_none` child anywhere, even when the input had them. */
  lemma {:induction false} ReplaceClean(data: Value, m: Marker, vMark: Value)
    requires Clean(vMark) && vMark != Omit
    ensures Clean(ReplaceMark(data, m, vMark))
    ensures data != Omit ==> ReplaceMark(data, m, vMark) != Omit
    decreases data
  {
    match data
    case Dict(es) => CleanEntries(es, 0, [], m, vMark);
    case List(xs) =>
      CleanItems(xs, 0, [], m, vMark);
      var r := ReplaceItems(xs, 0, [], m, vMark);
      forall j | 0 <= j < |r| ensures r[j] != Omit && Clean(r[j]) {
        assert r[j] in r;
      }
    case Tuple(xs) =>
      CleanItems(xs, 0, [], m, vMark);
      var r := ReplaceItems(xs, 0, [], m, vMark);
      forall j | 0 <= j < |r| ensures r[j] != Omit && Clean(r[j]) {
        assert r[j] in r;
      }
    case _ =>
  }

  lemma {:induction false} CleanItems(xs: seq<Value>, i: nat, acc: seq<Value>, m: Marker, vMark: Value)
    requires i <= |xs| && Clean(vMark) && vMark != Omit
    requires forall y :: y in acc ==> y != Omit && Clean(y)
    ensures forall y :: y in ReplaceItems(xs, i, acc, m, vMark) ==> y != Omit && Clean(y)
    decreases xs, |xs| - i
  {
    if i < |xs| {
      if xs[i] == Omit {
        CleanItems(xs, i + 1, acc, m, vMark);
      } else {
        ReplaceClean(xs[i], m, vMark);
        CleanItems(xs, i + 1, acc + [ReplaceMark(xs[i], m, vMark)], m, vMark);
      }
    }
  }

  lemma {:induction false} CleanEntries(es: seq<Entry>, i: nat, acc: seq<Entry>, m: Marker, vMark: Value)
    requires i <= |es| && Clean(vMark) && vMark != Omit
    requires DistinctKeys(acc) && forall e :: e in acc ==> e.val != Omit && Clean(e.val)
    ensures DistinctKeys(ReplaceEntries(es, i, acc, m, vMark))
    ensures forall e :: e in ReplaceEntries(es, i, acc, m, vMark) ==> e.val != Omit && Clean(e.val)
    decreases es, |es| - i
  {
    if i < |es| {
      if es[i].val == Omit {
        CleanEntries(es, i + 1, acc, m, vMark);
      } else {
        var x := ReplaceMark(es[i].val, m, vMark);
        ReplaceClean(es[i].val, m, vMark);
        var acc' := Store(acc, es[i].key, x);
        StoreMembers(acc, es[i].key, x);
        StoreDistinct(acc, es[i].key, x);
        CleanEntries(es, i + 1, acc', m, vMark);
      }
    }
  }

  /** A clean template without the target mark comes back unchanged. */
  lemma {:induction false} Identity(v: Value, m: Marker, vMark: Value)
    requires Clean(v) && !Holds(v, m)
    ensures ReplaceMark(v, m, vMark) == v
    decreases v
  {
    match v
    case Dict(es) =>
      forall j | 0 <= j < |es| ensures ReplaceMark(es[j].val, m, vMark) == es[j].val {
        Identity(es[j].val, m, vMark);
      }
      IdentityEntries(es, m, vMark);
    case List(xs) =>
      forall j | 0 <= j < |xs| ensures ReplaceMark(xs[j], m, vMark) == xs[j] {
        Identity(xs[j], m, vMark);
      }
      IdentityItems(xs, m, vMark);
    case Tuple(xs) =>
      forall j | 0 <= j < |xs| ensures ReplaceMark(xs[j], m, vMark) == xs[j] {
        Identity(xs[j], m, vMark);
      }
      IdentityItems(xs, m, vMark);
    case _ =>
  }

  /** A dict loop that keeps every entry and leaves every value unchanged gives the dict back. */
  lemma IdentityEntries(es: seq<Entry>, m: Marker, vMark: Value)
    requires DistinctKeys(es) && forall j :: 0 <= j < |es| ==> es[j].val != Omit
    requires forall j :: 0 <= j < |es| ==> ReplaceMark(es[j].val, m, vMark) == es[j].val
    ensures ReplaceEntries(es, 0, [], m, vMark) == es
  {
    EntriesFilterMap(es, m, vMark);
    KeptEntriesAll(es);
    assert MapReplaceEntries(es, m, vMark) == es;
  }

  /** A list loop that keeps every item and leaves every item unchanged gives the items back. */
  lemma IdentityItems(xs: seq<Value>, m: Marker, vMark: Value)
    requires forall j :: 0 <= j < |xs| ==> xs[j] != Omit
    requires forall j :: 0 <= j < |xs| ==> ReplaceMark(xs[j], m, vMark) == xs[j]
    ensures ReplaceItems(xs, 0, [], m, vMark) == xs
  {
    ItemsFilterMap(xs, m, vMark);
    KeptAll(xs);
    assert MapReplace(xs, m, vMark) == xs;
  }

  /** Substituting twice is substituting once, when `v_mark` is clean and holds no target mark. */
  lemma Idempotent(data: Value, m: Marker, vMark: Value)
    requires Clean(vMark) && vMark != Omit && !Holds(vMark, m)
    ensures ReplaceMark(ReplaceMark(data, m, vMark), m, vMark) == ReplaceMark(data, m, vMark)
  {
    var r := ReplaceMark(data, m, vMark);
    ReplaceClean(data, m, vMark);
    NoLeak(data, m, vMark);
    Identity(r, m, vMark);
  }

  /** The rebuilt `x` holds `other` exactly when `x` did, or `x` held the target and `v_mark` holds `other`. */
  predicate Carries(x: Value, m: Marker, other: Marker, vMark: Value) {
    Holds(ReplaceMark(x, m, vMark), other) <==> Holds(x, other) || (Holds(x, m) && Holds(vMark, other))
  }

  /**
   * Marks other than the target and `m_none` are neither dropped nor made up:
   * the rebuilt template holds one exactly when the input did, or the input
   * held the target and `v_mark` holds that other mark.
   */
  lemma {:induction false} Survive(data: Value, m: Marker, other: Marker, vMark: Value)
    requires other != m && m != OmitMark && other != OmitMark && WellFormed(data)
    ensures Carries(data, m, other, vMark)
    decreases data, 1
  {
    match data
    case Dict(es) => SurviveEntries(es, m, other, vMark);
    case List(xs) => SurviveItems(xs, m, other, vMark);
    case Tuple(xs) => SurviveItems(xs, m, other, vMark);
    case _ => SurviveLeaf(data, m, other, vMark);
  }

  lemma SurviveLeaf(data: Value, m: Marker, other: Marker, vMark: Value)
    requires other != m && !data.Dict? && !data.List? && !data.Tuple?
    ensures Carries(data, m, other, vMark)
  {
    assert ReplaceMark(data, m, vMark) == if data == Mark(m) then vMark else data;
  }

  lemma {:induction false} SurviveItems(xs: seq<Value>, m: Marker, other: Marker, vMark: Value)
    requires other != m && m != OmitMark && other != OmitMark
    requires forall j :: 0 <= j < |xs| ==> WellFormed(xs[j])
    ensures Carries(List(xs), m, other, vMark) && Carries(Tuple(xs), m, other, vMark)
    decreases xs, 0
  {
    forall j | 0 <= j < |xs| ensures Carries(xs[j], m, other, vMark) {
      Survive(xs[j], m, other, vMark);
    }
    SurviveList(xs, m, other, vMark);
    SurviveTuple(xs, m, other, vMark);
  }

  lemma {:induction false} SurviveEntries(es: seq<Entry>, m: Marker, other: Marker, vMark: Value)
    requires other != m && m != OmitMark && other != OmitMark && DistinctKeys(es)
    requires forall j :: 0 <= j < |es| ==> WellFormed(es[j].val)
    ensures Carries(Dict(es), m, other, vMark)
    decreases es, 0
  {
    forall j | 0 <= j < |es| ensures Carries(es[j].val, m, other, vMark) {
      Survive(es[j].val, m, other, vMark);
    }
    SurviveDict(es, m, other, vMark);
  }

  lemma SurviveDict(es: seq<Entry>, m: Marker, other: Marker, vMark: Value)
    requires m != OmitMark && other != OmitMark && DistinctKeys(es)
    requires forall j :: 0 <= j < |es| ==> Carries(es[j].val, m, other, vMark)
    ensures Carries(Dict(es), m, other, vMark)
  {
    EntriesFilterMap(es, m, vMark);
    assert ReplaceMark(Dict(es), m, vMark) == Dict(MapReplaceEntries(KeptEntries(es), m, vMark));
    SurviveEntriesOut(es, m, other, vMark);
    SurviveEntriesIn(es, m, other, vMark);
  }

  lemma SurviveList(xs: seq<Value>, m: Marker, other: Marker, vMark: Value)
    requires m != OmitMark && other != OmitMark
    requires forall j :: 0 <= j < |xs| ==> Carries(xs[j], m, other, vMark)
    ensures Carries(List(xs), m, other, vMark)
  {
    ItemsFilterMap(xs, m, vMark);
    assert ReplaceMark(List(xs), m, vMark) == List(MapReplace(Kept(xs), m, vMark));
    SurviveItemsOut(xs, m, other, vMark);
    SurviveItemsIn(xs, m, other, vMark);
  }

  lemma SurviveTuple(xs: seq<Value>, m: Marker, other: Marker, vMark: Value)
    requires m != OmitMark && other != OmitMark
    requires forall j :: 0 <= j < |xs| ==> Carries(xs[j], m, other, vMark)
    ensures Carries(Tuple(xs), m, other, vMark)
  {
    ItemsFilterMap(xs, m, vMark);
    assert ReplaceMark(Tuple(xs), m, vMark) == Tuple(MapReplace(Kept(xs), m, vMark));
    SurviveItemsOut(xs, m, other, vMark);
    SurviveItemsIn(xs, m, other, vMark);
  }

  /** A mark in the rebuilt items comes from a kept item. */
  lemma SurviveItemsOut(xs: seq<Value>, m: Marker, other: Marker, vMark: Value)
    requires forall j :: 0 <= j < |xs| ==> Carries(xs[j], m, other, vMark)
    ensures
      (exists j :: 0 <= j < |MapReplace(Kept(xs), m, vMark)| && Holds(MapReplace(Kept(xs), m, vMark)[j], other))
      ==> ((exists j :: 0 <= j < |xs| && Holds(xs[j], other))
           || ((exists j :: 0 <= j < |xs| && Holds(xs[j], m)) && Holds(vMark, other)))
  {
    var k := Kept(xs);
    var r := MapReplace(k, m, vMark);
    KeptMembers(xs);
    if j :| 0 <= j < |r| && Holds(r[j], other) {
      assert k[j] in k;
      var b :| 0 <= b < |xs| && xs[b] == k[j];
      assert Carries(xs[b], m, other, vMark);
    }
  }

  /** A mark in a kept item, or brought in by `v_mark`, is in the rebuilt items. */
  lemma SurviveItemsIn(xs: seq<Value>, m: Marker, other: Marker, vMark: Value)
    requires m != OmitMark && other != OmitMark
    requires forall j :: 0 <= j < |xs| ==> Carries(xs[j], m, other, vMark)
    ensures
      ((exists j :: 0 <= j < |xs| && Holds(xs[j], other))
       || ((exists j :: 0 <= j < |xs| && Holds(xs[j], m)) && Holds(vMark, other)))
      ==> (exists j :: 0 <= j < |MapReplace(Kept(xs), m, vMark)| && Holds(MapReplace(Kept(xs), m, vMark)[j], other))
  {
    var b: int := -1;
    if j :| 0 <= j < |xs| && Holds(xs[j], other) {
      b := j;
    } else if (exists j :: 0 <= j < |xs| && Holds(xs[j], m)) && Holds(vMark, other) {
      b :| 0 <= b < |xs| && Holds(xs[b], m);
    }
    if b >= 0 {
      assert Carries(xs[b], m, other, vMark);
      HeldItemKept(xs, b, m, other, vMark);
    }
  }

  /** A kept item whose rebuilt form holds `other` puts `other` in the rebuilt items. */
  lemma HeldItemKept(xs: seq<Value>, b: nat, m: Marker, other: Marker, vMark: Value)
    requires b < |xs| && xs[b] != Omit && Holds(ReplaceMark(xs[b], m, vMark), other)
    ensures exists j :: 0 <= j < |MapReplace(Kept(xs), m, vMark)| && Holds(MapReplace(Kept(xs), m, vMark)[j], other)
  {
    var k := Kept(xs);
    var r := MapReplace(k, m, vMark);
    KeptMembers(xs);
    assert xs[b] in xs;
    assert xs[b] in k;
    var j :| 0 <= j < |k| && k[j] == xs[b];
    assert r[j] == ReplaceMark(xs[b], m, vMark);
  }

  /** A mark in the rebuilt entries comes from a kept entry. */
  lemma SurviveEntriesOut(es: seq<Entry>, m: Marker, other: Marker, vMark: Value)
    requires forall j :: 0 <= j < |es| ==> Carries(es[j].val, m, other, vMark)
    ensures Holds(Dict(MapReplaceEntries(KeptEntries(es), m, vMark)), other)
        ==> Holds(Dict(es), other) || (Holds(Dict(es), m) && Holds(vMark, other))
  {
    var k := KeptEntries(es);
    var r := MapReplaceEntries(k, m, vMark);
    KeptEntriesMembers(es);
    if j :| 0 <= j < |r| && Holds(r[j].val, other) {
      assert k[j] in k;
      var b :| 0 <= b < |es| && es[b] == k[j];
      assert Carries(es[b].val, m, other, vMark);
    }
  }

  /** A mark in a kept entry, or brought in by `v_mark`, is in the rebuilt entries. */
  lemma SurviveEntriesIn(es: seq<Entry>, m: Marker, other: Marker, vMark: Value)
    requires m != OmitMark && other != OmitMark
    requires forall j :: 0 <= j < |es| ==> Carries(es[j].val, m, other, vMark)
    ensures Holds(Dict(es), other) || (Holds(Dict(es), m) && Holds(vMark, other))
        ==> Holds(Dict(MapReplaceEntries(KeptEntries(es), m, vMark)), other)
  {
    var b: int := -1;
    if j :| 0 <= j < |es| && Holds(es[j].val, other) {
      b := j;
    } else if (exists j :: 0 <= j < |es| && Holds(es[j].val, m)) && Holds(vMark, other) {
      b :| 0 <= b < |es| && Holds(es[b].val, m);
    }
    if b >= 0 {
      assert Carries(es[b].val, m, other, vMark);
      HeldEntryKept(es, b, m, other, vMark);
    }
  }

  /** A kept entry whose rebuilt value holds `other` puts `other` in the rebuilt entries. */
  lemma HeldEntryKept(es: seq<Entry>, b: nat, m: Marker, other: Marker, vMark: Value)
    requires b < |es| && es[b].val != Omit && Holds(ReplaceMark(es[b].val, m, vMark), other)
    ensures exists j :: 0 <= j < |MapReplaceEntries(KeptEntries(es), m, vMark)|
                        && Holds(MapReplaceEntries(KeptEntries(es), m, vMark)[j].val, other)
  {
    var k := KeptEntries(es);
    var r := MapReplaceEntries(k, m, vMark);
    KeptEntriesMembers(es);
    assert es[b] in es;
    assert es[b] in k;
    var j :| 0 <= j < |k| && k[j] == es[b];
    assert r[j].val == ReplaceMark(es[b].val, m, vMark);
  }

  /** `_replace_page` leaves a cursor mark where it was: only the target mark is replaced. */
  lemma PageKeepsCursor(data: Value, page: int)
    requires WellFormed(data)
    ensures Holds(ReplacePage(data, page), CursorMark) <==> Holds(data, CursorMark)
  {
    Survive(data, PageMark, CursorMark, Int(page));
  }

  /** `_replace_cursor` leaves a page mark where it was, unless the cursor value brings one in. */
  lemma CursorKeepsPage(data: Value, cursor: Value)
    requires WellFormed(data) && !Holds(cursor, PageMark)
    ensures Holds(ReplaceCursor(data, cursor), PageMark) <==> Holds(data, PageMark)
  {
    Survive(data, CursorMark, PageMark, cursor);
  }
}
