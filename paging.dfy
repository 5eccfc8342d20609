/*
 * The pagination generators of civitai/client/client.py, `_iter_via_cursor_fn`
 * and `_iter_via_page_fn`, as objects whose `Next` plays one `next()` on the
 * generator. The injected `fn` is the sequence of answers it gives, call after
 * call; asking it for more answers than there are stands for `fn` raising.
 */
module Paging {
  import opened Values

  /** What one `next()` gives: an item, `StopIteration`, or the exception `fn` raised. */
  datatype Pull = Item(item: Value) | Exhausted | Failed

  /** One answer of a cursor `fn`: `(items, next_cursor)`. */
  datatype CursorPage = CursorPage(items: seq<Value>, next: Value)

  /** The items of consecutive answers, one after another. */
  function Flatten(ps: seq<seq<Value>>): seq<Value> {
    if ps == [] then [] else Flatten(ps[..|ps| - 1]) + ps[|ps| - 1]
  }

  lemma FlattenStep(ps: seq<seq<Value>>, n: nat)
    requires n < |ps|
    ensures Flatten(ps[..n + 1]) == Flatten(ps[..n]) + ps[n]
  {
    assert ps[..n + 1][..n] == ps[..n];
  }

  function ItemsOf(pages: seq<CursorPage>): (r: seq<seq<Value>>)
    ensures |r| == |pages| && forall k :: 0 <= k < |pages| ==> r[k] == pages[k].items
  {
    seq(|pages|, k requires 0 <= k < |pages| => pages[k].items)
  }

  // ---------------------------------------------------------------------------
  // Cursor iteration
  // ---------------------------------------------------------------------------

  /** The index of the first answer whose cursor is None, or the number of answers when none is. */
  function FirstStop(pages: seq<CursorPage>): (r: nat)
    ensures r <= |pages|
    ensures forall k :: 0 <= k < r ==> pages[k].next != Null
    ensures r < |pages| ==> pages[r].next == Null
  {
    if pages == [] then 0
    else if pages[0].next == Null then 0
    else 1 + FirstStop(pages[1..])
  }

  /** The argument of call `k`: `undefined` first, then the cursor the previous call returned. */
  function CursorArg(pages: seq<CursorPage>, k: nat): Value
    requires k <= |pages|
  {
    if k == 0 then Undefined else pages[k - 1].next
  }

  class CursorPager {
    /** The answers `fn` gives, in call order. */
    const pages: seq<CursorPage>
    /** How often `fn` has been called. */
    var calls: nat
    /** The generator's `cursor` variable. */
    var cursor: Value
    /** What `yield from items` has still to give of the last answer. */
    var pending: seq<Value>
    /** The generator has returned or raised. */
    var done: bool
    ghost var failed: bool
    /** The argument of every call so far. */
    ghost var args: seq<Value>
    /** Every item given so far. */
    ghost var yielded: seq<Value>

    ghost predicate Valid()
      reads this
    {
      && calls <= |pages|
      && |args| == calls && (forall k :: 0 <= k < calls ==> args[k] == CursorArg(pages, k))
      && cursor == CursorArg(pages, calls)
      && (forall k :: 0 <= k < calls - 1 ==> pages[k].next != Null)
      && yielded + pending == Flatten(ItemsOf(pages)[..calls])
      && (done ==> pending == [])
      && (done && !failed ==> cursor == Null)
      && (failed ==> done && calls == |pages| && cursor != Null)
    }

    /** `_iter_via_cursor_fn(fn)`: nothing runs before the first `next()`. */
    constructor(answers: seq<CursorPage>)
      ensures Valid() && pages == answers
      ensures calls == 0 && yielded == [] && !done
    {
      pages := answers;
      calls := 0;
      cursor := Undefined;
      pending := [];
      done := false;
      failed := false;
      args := [];
      yielded := [];
    }

    /** `yield` the next item of the last answer. */
    method Give() returns (p: Pull)
      requires Valid() && pending != []
      modifies this
      ensures Valid() && p == Item(old(pending)[0])
      ensures yielded == old(yielded) + [p.item] && pending == old(pending)[1..]
      ensures calls == old(calls) && done == old(done) && failed == old(failed)
    {
      p := Item(pending[0]);
      yielded := yielded + [pending[0]];
      pending := pending[1..];
    }

    /** `items, cursor = fn(cursor)`. */
    method Call()
      requires Valid() && pending == [] && !done && cursor != Null && calls < |pages|
      modifies this
      ensures Valid() && calls == old(calls) + 1 && yielded == old(yielded)
      ensures done == old(done) && failed == old(failed)
    {
      FlattenStep(ItemsOf(pages), calls);
      assert ItemsOf(pages)[calls] == pages[calls].items;
      args := args + [cursor];
      pending := pages[calls].items;
      cursor := pages[calls].next;
      calls := calls + 1;
    }

    /** One `next()` on the generator. */
    method Next() returns (p: Pull)
      requires Valid()
      modifies this
      ensures Valid()
      ensures p.Item? ==> !done && yielded == old(yielded) + [p.item]
      ensures p.Item? ==> calls > old(calls) || (calls == old(calls) && |pending| < old(|pending|))
      ensures !p.Item? ==> done && yielded == old(yielded)
      ensures failed ==> old(failed) || p.Failed?
      ensures p.Exhausted? && !failed ==> calls == FirstStop(pages) + 1
      ensures p.Failed? ==> failed && FirstStop(pages) == |pages|
    {
      while true
        invariant Valid() && yielded == old(yielded) && done == old(done) && failed == old(failed)
        invariant calls > old(calls) || (calls == old(calls) && pending == old(pending))
        decreases |pages| - calls
      {
        if pending != [] {
          p := Give();
          return;
        }
        if done {
          p := Exhausted;
          return;
        }
        if cursor == Null {
          done := true;
          p := Exhausted;
          return;
        }
        if calls == |pages| {
          done := true;
          failed := true;
          p := Failed;
          return;
        }
        Call();
      }
    }

    /** `list(_iter_via_cursor_fn(fn))`, or what was given before `fn` raised. */
    method Drain() returns (out: seq<Value>, raised: bool)
      requires Valid() && calls == 0 && yielded == [] && !done
      modifies this
      ensures Valid()
      ensures out == yielded == Flatten(ItemsOf(pages)[..calls])
      ensures |args| == calls && forall k :: 0 <= k < calls ==> args[k] == CursorArg(pages, k)
      ensures !raised ==> FirstStop(pages) < |pages| && calls == FirstStop(pages) + 1
      ensures raised ==> FirstStop(pages) == |pages| && calls == |pages|
    {
      out := [];
      while true
        invariant Valid() && out == yielded && !done
        decreases |pages| - calls, |pending|
      {
        var p := Next();
        if !p.Item? {
          raised := p.Failed?;
          return;
        }
        out := out + [p.item];
      }
    }
  }

  // ---------------------------------------------------------------------------
  // Page iteration
  // ---------------------------------------------------------------------------

  /** The index of the first empty answer, or the number of answers when none is empty. */
  function FirstEmpty(pages: seq<seq<Value>>): (r: nat)
    ensures r <= |pages|
    ensures forall k :: 0 <= k < r ==> pages[k] != []
    ensures r < |pages| ==> pages[r] == []
  {
    if pages == [] then 0
    else if pages[0] == [] then 0
    else 1 + FirstEmpty(pages[1..])
  }

  class PagePager {
    /** The item lists `fn` gives, in call order. */
    const pages: seq<seq<Value>>
    var calls: nat
    /** The generator's `page` variable. */
    var page: int
    var pending: seq<Value>
    /** The generator's `is_empty` variable. */
    var isEmpty: bool
    var done: bool
    ghost var failed: bool
    ghost var args: seq<int>
    ghost var yielded: seq<Value>

    ghost predicate Valid()
      reads this
    {
      && calls <= |pages|
      && |args| == calls && (forall k :: 0 <= k < calls ==> args[k] == k + 1)
      && page == (if calls == 0 then 1 else if failed then calls + 1 else calls)
      && (forall k :: 0 <= k < calls - 1 ==> pages[k] != [])
      && yielded + pending == Flatten(pages[..calls])
      && (calls == 0 ==> pending == [])
      && (calls > 0 && isEmpty ==> pending == pages[calls - 1])
      && (calls > 0 && !isEmpty ==> |pending| < |pages[calls - 1]|)
      && (done ==> pending == [])
      && (done && !failed ==> calls > 0 && pages[calls - 1] == [])
      && (failed ==> done && calls == |pages| && (calls == 0 || pages[calls - 1] != []))
    }

    /** `_iter_via_page_fn(fn)`: nothing runs before the first `next()`. */
    constructor(answers: seq<seq<Value>>)
      ensures Valid() && pages == answers
      ensures calls == 0 && yielded == [] && !done
    {
      pages := answers;
      calls := 0;
      page := 1;
      pending := [];
      isEmpty := true;
      done := false;
      failed := false;
      args := [];
      yielded := [];
    }

    /** `yield item; is_empty = False`. */
    method Give() returns (p: Pull)
      requires Valid() && pending != []
      modifies this
      ensures Valid() && p == Item(old(pending)[0]) && !isEmpty
      ensures yielded == old(yielded) + [p.item] && pending == old(pending)[1..]
      ensures calls == old(calls) && done == old(done) && failed == old(failed)
    {
      p := Item(pending[0]);
      yielded := yielded + [pending[0]];
      pending := pending[1..];
      isEmpty := false;
    }

    /** `page += 1` after a page that was not empty, then `items = fn(page); is_empty = True`. */
    method Call()
      requires Valid() && pending == [] && !done && calls < |pages|
      requires calls > 0 ==> !isEmpty
      modifies this
      ensures Valid() && calls == old(calls) + 1 && yielded == old(yielded)
      ensures done == old(done) && failed == old(failed)
    {
      FlattenStep(pages, calls);
      if calls > 0 {
        page := page + 1;
      }
      args := args + [page];
      pending := pages[calls];
      isEmpty := true;
      calls := calls + 1;
    }

    /** One `next()` on the generator. */
    method Next() returns (p: Pull)
      requires Valid()
      modifies this
      ensures Valid()
      ensures p.Item? ==> !done && yielded == old(yielded) + [p.item]
      ensures p.Item? ==> calls > old(calls) || (calls == old(calls) && |pending| < old(|pending|))
      ensures !p.Item? ==> done && yielded == old(yielded)
      ensures failed ==> old(failed) || p.Failed?
      ensures p.Exhausted? && !failed ==> calls == FirstEmpty(pages) + 1
      ensures p.Failed? ==> failed && FirstEmpty(pages) == |pages|
    {
      while true
        invariant Valid() && yielded == old(yielded) && done == old(done) && failed == old(failed)
        invariant calls > old(calls) || (calls == old(calls) && pending == old(pending))
        decreases |pages| - calls
      {
        if pending != [] {
          p := Give();
          return;
        }
        if done {
          p := Exhausted;
          return;
        }
        if calls > 0 && isEmpty {
          done := true;
          p := Exhausted;
          return;
        }
        if calls == |pages| {
          if calls > 0 {
            page := page + 1;
          }
          done := true;
          failed := true;
          p := Failed;
          return;
        }
        Call();
      }
    }

    /** `list(_iter_via_page_fn(fn))`, or what was given before `fn` raised. */
    method Drain() returns (out: seq<Value>, raised: bool)
      requires Valid() && calls == 0 && yielded == [] && !done
      modifies this
      ensures Valid()
      ensures out == yielded == Flatten(pages[..calls])
      ensures |args| == calls && forall k :: 0 <= k < calls ==> args[k] == k + 1
      ensures !raised ==> FirstEmpty(pages) < |pages| && calls == FirstEmpty(pages) + 1
      ensures !raised ==> out == Flatten(pages[..FirstEmpty(pages)])
      ensures raised ==> FirstEmpty(pages) == |pages| && calls == |pages|
    {
      out := [];
      while true
        invariant Valid() && out == yielded && !done
        decreases |pages| - calls, |pending|
      {
        var p := Next();
        if !p.Item? {
          raised := p.Failed?;
          if !raised {
            FlattenEmptyLast(pages, calls - 1);
          }
          return;
        }
        out := out + [p.item];
      }
    }
  }

  // ---------------------------------------------------------------------------
  // What a whole run gives
  // ---------------------------------------------------------------------------

  /** An empty answer adds nothing to the items. */
  lemma FlattenEmptyLast(ps: seq<seq<Value>>, n: nat)
    requires n < |ps| && ps[n] == []
    ensures Flatten(ps[..n + 1]) == Flatten(ps[..n])
  {
    FlattenStep(ps, n);
    assert Flatten(ps[..n]) + [] == Flatten(ps[..n]);
  }

  /** An empty first answer ends page iteration after exactly one call, having given nothing. */
  lemma EmptyFirstPage(pages: seq<seq<Value>>)
    requires pages != [] && pages[0] == []
    ensures FirstEmpty(pages) + 1 == 1
    ensures Flatten(pages[..FirstEmpty(pages) + 1]) == []
  {
    FlattenStep(pages, 0);
    assert pages[..0] == [];
  }

  /** A falsy cursor that is not None does not stop cursor iteration. */
  lemma FalsyCursorGoesOn(pages: seq<CursorPage>, k: nat)
    requires k < |pages| && pages[k].next in {Int(0), Str(""), Bool(false), List([]), Dict([])}
    requires forall j :: 0 <= j < k ==> pages[j].next != Null
    ensures FirstStop(pages) > k
  {
  }
}
