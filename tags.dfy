/*
 * Tag handling of civitai/client/client.py: the `Level` flags, the default
 * sort of `iter_tags`, `_query_model_tag`, and the loop of `upsert_model` that
 * turns the wanted tags and the category into the `tags` list of the request
 * without naming one tag twice.
 */
module Tags {
  import opened Values
  import Names

  // ---------------------------------------------------------------------------
  // Level
  // ---------------------------------------------------------------------------

  /** The `Level` IntFlag: one bit per rating, and the two groups and their union. */
  const PG: bv8 := 0x1
  const PG13: bv8 := 0x2
  const R: bv8 := 0x4
  const X: bv8 := 0x8
  const XXX: bv8 := 0x10
  const SFW: bv8 := PG | PG13
  const NSFW: bv8 := R | X | XXX
  const ALL: bv8 := PG | PG13 | R | X | XXX

  /** The safe and unsafe groups split the ratings between them. */
  lemma LevelGroups()
    ensures SFW as int == 3 && NSFW as int == 28 && ALL as int == 31
    ensures SFW & NSFW == 0 && SFW | NSFW == ALL
  {
  }

  // ---------------------------------------------------------------------------
  // iter_tags
  // ---------------------------------------------------------------------------

  /** `sort or default` for the entity type, with a `ValueError` for an unknown one. */
  function TagSort(entityType: string, sort: Option<string>): (r: Result<string>)
    ensures r.Ok? <==> entityType in ["Model", "Image", "Post", "Article"]
    ensures r.Ok? && sort.Some? && sort.value != "" ==> r.value == sort.value
    ensures r.Ok? && (sort.None? || sort.value == "") ==> r.value == "Most " + entityType + "s"
    ensures r.Err? ==> r.error == ValueError
  {
    var given := if sort.Some? && sort.value != "" then Some(sort.value) else None;
    if entityType == "Model" then Ok(if given.Some? then given.value else "Most Models")
    else if entityType == "Image" then Ok(if given.Some? then given.value else "Most Images")
    else if entityType == "Post" then Ok(if given.Some? then given.value else "Most Posts")
    else if entityType == "Article" then Ok(if given.Some? then given.value else "Most Articles")
    else Err(ValueError)
  }

  // ---------------------------------------------------------------------------
  // _query_model_tag
  // ---------------------------------------------------------------------------

  /** One search result: its `id`, `name` and `isCategory`. */
  datatype TagItem = TagItem(id: int, name: string, isCategory: bool)

  /** The position of the first search result whose name matches the tag, or the number of results. */
  function MatchAt(items: seq<TagItem>, tag: string): (r: nat)
    ensures r <= |items|
    ensures forall k :: 0 <= k < r ==> !Names.ModelTagSame(items[k].name, tag)
    ensures r < |items| ==> Names.ModelTagSame(items[r].name, tag)
  {
    if items == [] then 0
    else if Names.ModelTagSame(items[0].name, tag) then 0
    else 1 + MatchAt(items[1..], tag)
  }

  /** The first search result whose name matches the tag as a model tag. */
  function FirstMatch(items: seq<TagItem>, tag: string): Option<TagItem> {
    var k := MatchAt(items, tag);
    if k < |items| then Some(items[k]) else None
  }

  /** A position with no match before it and a match at it (or at the end) is `MatchAt`. */
  lemma MatchAtUnique(items: seq<TagItem>, tag: string, k: nat)
    requires k <= |items| && forall j :: 0 <= j < k ==> !Names.ModelTagSame(items[j].name, tag)
    requires k < |items| ==> Names.ModelTagSame(items[k].name, tag)
    ensures MatchAt(items, tag) == k
  {
  }

  /** `_query_model_tag(tag)` over the results the tag search yields. */
  method QueryModelTag(items: seq<TagItem>, tag: string) returns (r: Option<TagItem>)
    ensures r == FirstMatch(items, tag)
    ensures r.Some? ==> r.value in items && Names.ModelTagSame(r.value.name, tag)
    ensures r.None? ==> forall k :: 0 <= k < |items| ==> !Names.ModelTagSame(items[k].name, tag)
  {
    var k := 0;
    while k < |items|
      invariant k <= |items| && forall j :: 0 <= j < k ==> !Names.ModelTagSame(items[j].name, tag)
    {
      if Names.ModelTagSame(items[k].name, tag) {
        MatchAtUnique(items, tag, k);
        return Some(items[k]);
      }
      k := k + 1;
    }
    MatchAtUnique(items, tag, k);
    return None;
  }

  // ---------------------------------------------------------------------------
  // upsert_model: the tags of the request
  // ---------------------------------------------------------------------------

  /** An entry of `tags_data`: a tag found on the site, or a new one to create. */
  datatype TagRef = Known(id: int, name: string, isCategory: bool) | Fresh(name: string)

  /** The dict `upsert_model` appends for an entry. */
  function TagJson(t: TagRef): Value {
    match t
    case Known(id, name, isCategory) =>
      Dict([Entry("id", Int(id)), Entry("name", Str(name)),
            if isCategory then Entry("models", Undefined) else Entry("isCategory", Bool(false))])
    case Fresh(name) => Dict([Entry("id", Undefined), Entry("name", Str(name))])
  }

  /**
   * A found tag is sent by id and name, with `models` left out when it is a
   * category and `isCategory` false otherwise; a new tag has no id.
   */
  lemma TagJsonFields(t: TagRef)
    ensures TagJson(t).Dict? && Lookup(TagJson(t).entries, "name") == Some(Str(t.name))
    ensures t.Fresh? ==> Lookup(TagJson(t).entries, "id") == Some(Undefined)
    ensures t.Known? ==> Lookup(TagJson(t).entries, "id") == Some(Int(t.id))
    ensures t.Known? && t.isCategory ==> Lookup(TagJson(t).entries, "models") == Some(Undefined)
    ensures t.Known? && !t.isCategory ==> Lookup(TagJson(t).entries, "isCategory") == Some(Bool(false))
    ensures t.Known? ==> |TagJson(t).entries| == 3
  {
    var es := TagJson(t).entries;
    if t.Known? {
      assert es[1..][1..] == [es[2]];
      assert Lookup(es, es[2].key) == Lookup(es[1..], es[2].key) == Lookup(es[1..][1..], es[2].key);
    }
  }

  /** What a wanted tag stands for once searched: the match found, or a new tag under its own name. */
  function Candidate(tag: string, search: string -> seq<TagItem>): TagRef {
    match FirstMatch(search(tag), tag)
    case Some(item) => Known(item.id, item.name, item.isCategory)
    case None => Fresh(tag)
  }

  /** `tags_data`, `exist_tag_ids` and `exist_tags` after some of the wanted tags. */
  datatype Dedup = Dedup(refs: seq<TagRef>, ids: set<int>, names: set<string>)

  /** One turn of the loop: append the candidate unless its id or lower-cased name was seen. */
  function Step(d: Dedup, c: TagRef): Dedup {
    match c
    case Known(id, name, _) =>
      if id !in d.ids && Names.Lower(name) !in d.names
      then Dedup(d.refs + [c], d.ids + {id}, d.names + {Names.Lower(name)})
      else d
    case Fresh(name) =>
      if Names.Lower(name) !in d.names
      then Dedup(d.refs + [c], d.ids, d.names + {Names.Lower(name)})
      else d
  }

  /** The loop over `[*tags, category]`, as far as the first `n` wanted tags. */
  function DedupOf(wanted: seq<string>, search: string -> seq<TagItem>): Dedup {
    if wanted == [] then Dedup([], {}, {})
    else Step(DedupOf(wanted[..|wanted| - 1], search), Candidate(wanted[|wanted| - 1], search))
  }

  /** The `tags_data` loop of `upsert_model`; `search(tag)` is what the tag search yields. */
  method UpsertTags(tags: seq<string>, category: string, search: string -> seq<TagItem>) returns (data: seq<Value>)
    ensures |data| == |DedupOf(tags + [category], search).refs|
    ensures forall k :: 0 <= k < |data| ==> data[k] == TagJson(DedupOf(tags + [category], search).refs[k])
  {
    var wanted := tags + [category];
    ghost var refs: seq<TagRef> := [];
    var existIds: set<int> := {};
    var existTags: set<string> := {};
    data := [];
    for i := 0 to |wanted|
      invariant Dedup(refs, existIds, existTags) == DedupOf(wanted[..i], search)
      invariant |data| == |refs| && forall k :: 0 <= k < |refs| ==> data[k] == TagJson(refs[k])
    {
      assert wanted[..i + 1][..i] == wanted[..i];
      data, refs, existIds, existTags := UpsertTurn(wanted[i], search, data, refs, existIds, existTags);
    }
    assert wanted[..|wanted|] == wanted;
  }

  /** One turn of that loop: search the tag, and append its entry unless its id or lower-cased name was seen. */
  method UpsertTurn(tag: string, search: string -> seq<TagItem>, data: seq<Value>, ghost refs: seq<TagRef>, existIds: set<int>, existTags: set<string>)
    returns (data': seq<Value>, ghost refs': seq<TagRef>, existIds': set<int>, existTags': set<string>)
    requires |data| == |refs| && forall k :: 0 <= k < |refs| ==> data[k] == TagJson(refs[k])
    ensures Dedup(refs', existIds', existTags') == Step(Dedup(refs, existIds, existTags), Candidate(tag, search))
    ensures |data'| == |refs'| && forall k :: 0 <= k < |refs'| ==> data'[k] == TagJson(refs'[k])
  {
    data', refs', existIds', existTags' := data, refs, existIds, existTags;
    var item := QueryModelTag(search(tag), tag);
    if item.Some? {
      var it := item.value;
      if it.id !in existIds && Names.Lower(it.name) !in existTags {
        var t := Known(it.id, it.name, it.isCategory);
        data' := data + [TagJson(t)];
        refs' := refs + [t];
        existIds' := existIds + {it.id};
        existTags' := existTags + {Names.Lower(it.name)};
      }
    } else {
      if Names.Lower(tag) !in existTags {
        data' := data + [TagJson(Fresh(tag))];
        refs' := refs + [Fresh(tag)];
        existTags' := existTags + {Names.Lower(tag)};
      }
    }
  }

  // ---------------------------------------------------------------------------
  // What the loop guarantees
  // ---------------------------------------------------------------------------

  /** The sets hold exactly the lower-cased names and the ids of the entries so far. */
  ghost predicate Tracks(d: Dedup) {
    && (forall n :: n in d.names <==> exists k :: 0 <= k < |d.refs| && Names.Lower(d.refs[k].name) == n)
    && (forall id :: id in d.ids <==> exists k :: 0 <= k < |d.refs| && d.refs[k].Known? && d.refs[k].id == id)
  }

  /** No two entries share a lower-cased name, and no two found tags share an id. */
  ghost predicate NoRepeats(refs: seq<TagRef>) {
    && (forall a, b :: 0 <= a < b < |refs| ==> Names.Lower(refs[a].name) != Names.Lower(refs[b].name))
    && (forall a, b :: 0 <= a < b < |refs| && refs[a].Known? && refs[b].Known? ==> refs[a].id != refs[b].id)
  }

  /** `xs` is `ys` with some elements left out, the rest in the same order. */
  ghost predicate Subsequence<T>(xs: seq<T>, ys: seq<T>) {
    if xs == [] then true
    else if ys == [] then false
    else if xs[|xs| - 1] == ys[|ys| - 1] then Subsequence(xs[..|xs| - 1], ys[..|ys| - 1])
    else Subsequence(xs, ys[..|ys| - 1])
  }

  /** The entry `c` was not added because one with its lower-cased name or its id is there. */
  ghost predicate Covered(refs: seq<TagRef>, c: TagRef) {
    exists k :: 0 <= k < |refs| &&
      (Names.Lower(refs[k].name) == Names.Lower(c.name) || (c.Known? && refs[k].Known? && refs[k].id == c.id))
  }

  /** A turn appends the candidate or leaves the entries as they are. */
  lemma StepShape(d: Dedup, c: TagRef)
    ensures Step(d, c).refs == d.refs || Step(d, c).refs == d.refs + [c]
    ensures Step(d, c).refs != d.refs ==> Names.Lower(c.name) !in d.names && (c.Known? ==> c.id !in d.ids)
    ensures Step(d, c).refs == d.refs ==> Names.Lower(c.name) in d.names || (c.Known? && c.id in d.ids)
  {
  }

  /** A turn keeps the sets in step with the entries and repeats nothing. */
  lemma StepKeeps(d: Dedup, c: TagRef)
    requires Tracks(d) && NoRepeats(d.refs)
    ensures Tracks(Step(d, c)) && NoRepeats(Step(d, c).refs)
  {
    StepShape(d, c);
    if Step(d, c).refs != d.refs {
      var e := Appended(d, c);
      assert Step(d, c) == e;
      AppendedTracks(d, c);
      AppendedNoRepeats(d, c);
    }
  }

  /** The state after the candidate is appended. */
  function Appended(d: Dedup, c: TagRef): Dedup {
    Dedup(d.refs + [c], if c.Known? then d.ids + {c.id} else d.ids, d.names + {Names.Lower(c.name)})
  }

  lemma AppendedTracks(d: Dedup, c: TagRef)
    requires Tracks(d)
    ensures Tracks(Appended(d, c))
  {
    var e := Appended(d, c);
    assert e.refs[|d.refs|] == c;
    forall n ensures n in e.names <==> exists k :: 0 <= k < |e.refs| && Names.Lower(e.refs[k].name) == n {
      if n in d.names {
        var k :| 0 <= k < |d.refs| && Names.Lower(d.refs[k].name) == n;
        assert e.refs[k] == d.refs[k];
      }
      if k :| 0 <= k < |e.refs| && Names.Lower(e.refs[k].name) == n {
        if k < |d.refs| { assert e.refs[k] == d.refs[k]; }
      }
    }
    forall id ensures id in e.ids <==> exists k :: 0 <= k < |e.refs| && e.refs[k].Known? && e.refs[k].id == id {
      if id in d.ids {
        var k :| 0 <= k < |d.refs| && d.refs[k].Known? && d.refs[k].id == id;
        assert e.refs[k] == d.refs[k];
      }
      if k :| 0 <= k < |e.refs| && e.refs[k].Known? && e.refs[k].id == id {
        if k < |d.refs| { assert e.refs[k] == d.refs[k]; }
      }
    }
  }

  lemma AppendedNoRepeats(d: Dedup, c: TagRef)
    requires Tracks(d) && NoRepeats(d.refs)
    requires Names.Lower(c.name) !in d.names && (c.Known? ==> c.id !in d.ids)
    ensures NoRepeats(Appended(d, c).refs)
  {
    var r := d.refs + [c];
    assert r[|d.refs|] == c;
    forall a, b | 0 <= a < b < |r| ensures Names.Lower(r[a].name) != Names.Lower(r[b].name) {
      assert r[a] == d.refs[a];
      if b < |d.refs| { assert r[b] == d.refs[b]; }
    }
    forall a, b | 0 <= a < b < |r| && r[a].Known? && r[b].Known? ensures r[a].id != r[b].id {
      assert r[a] == d.refs[a];
      if b < |d.refs| { assert r[b] == d.refs[b]; }
    }
  }

  /** After a turn the candidate is stood for. */
  lemma StepCovers(d: Dedup, c: TagRef)
    requires Tracks(d)
    ensures Covered(Step(d, c).refs, c)
  {
    var e := Step(d, c);
    StepShape(d, c);
    if e.refs == d.refs + [c] {
      assert e.refs[|d.refs|] == c;
    }
  }

  /** A turn keeps standing for whatever was stood for before. */
  lemma StepKeepsCovered(d: Dedup, c: TagRef, t: TagRef)
    requires Covered(d.refs, t)
    ensures Covered(Step(d, c).refs, t)
  {
    var e := Step(d, c);
    StepShape(d, c);
    var k :| 0 <= k < |d.refs| &&
      (Names.Lower(d.refs[k].name) == Names.Lower(t.name) || (t.Known? && d.refs[k].Known? && d.refs[k].id == t.id));
    assert e.refs[k] == d.refs[k];
  }

  /** What each wanted tag stands for, in order. */
  function Candidates(wanted: seq<string>, search: string -> seq<TagItem>): (cs: seq<TagRef>)
    ensures |cs| == |wanted| && forall i :: 0 <= i < |wanted| ==> cs[i] == Candidate(wanted[i], search)
  {
    seq(|wanted|, i requires 0 <= i < |wanted| => Candidate(wanted[i], search))
  }

  lemma CandidatesPrefix(wanted: seq<string>, search: string -> seq<TagItem>)
    requires wanted != []
    ensures Candidates(wanted, search)[..|wanted| - 1] == Candidates(wanted[..|wanted| - 1], search)
  {
  }

  /** `exist_tags` and `exist_tag_ids` hold what the entries hold, and no entry repeats a name or an id. */
  lemma {:induction false} DedupDistinct(wanted: seq<string>, search: string -> seq<TagItem>)
    ensures Tracks(DedupOf(wanted, search)) && NoRepeats(DedupOf(wanted, search).refs)
  {
    if wanted != [] {
      var n := |wanted| - 1;
      DedupDistinct(wanted[..n], search);
      StepKeeps(DedupOf(wanted[..n], search), Candidate(wanted[n], search));
    }
  }

  /** The entries are the candidates of the wanted tags, some left out, in the order of `[*tags, category]`. */
  lemma {:induction false} DedupOrder(wanted: seq<string>, search: string -> seq<TagItem>)
    ensures Subsequence(DedupOf(wanted, search).refs, Candidates(wanted, search))
  {
    if wanted != [] {
      var n := |wanted| - 1;
      var d := DedupOf(wanted[..n], search);
      DedupOrder(wanted[..n], search);
      CandidatesPrefix(wanted, search);
      StepShape(d, Candidate(wanted[n], search));
      SubsequenceStep(d.refs, Candidates(wanted, search), DedupOf(wanted, search).refs);
    }
  }

  /** The `i`-th wanted tag is stood for by an entry with its lower-cased name or, when found, its id. */
  lemma {:induction false} DedupCoversAt(wanted: seq<string>, search: string -> seq<TagItem>, i: nat)
    requires i < |wanted|
    ensures Covered(DedupOf(wanted, search).refs, Candidate(wanted[i], search))
  {
    var n := |wanted| - 1;
    var d := DedupOf(wanted[..n], search);
    if i == n {
      DedupDistinct(wanted[..n], search);
      StepCovers(d, Candidate(wanted[n], search));
    } else {
      DedupCoversAt(wanted[..n], search, i);
      assert wanted[..n][i] == wanted[i];
      StepKeepsCovered(d, Candidate(wanted[n], search), Candidate(wanted[i], search));
    }
  }

  /** Every wanted tag is stood for by some entry. */
  lemma DedupCovers(wanted: seq<string>, search: string -> seq<TagItem>)
    ensures forall i :: 0 <= i < |wanted| ==> Covered(DedupOf(wanted, search).refs, Candidate(wanted[i], search))
  {
    forall i | 0 <= i < |wanted| ensures Covered(DedupOf(wanted, search).refs, Candidate(wanted[i], search)) {
      DedupCoversAt(wanted, search, i);
    }
  }

  lemma SubsequenceStep<T>(xs: seq<T>, ys: seq<T>, zs: seq<T>)
    requires ys != [] && Subsequence(xs, ys[..|ys| - 1])
    requires zs == xs || zs == xs + [ys[|ys| - 1]]
    ensures Subsequence(zs, ys)
  {
    if zs == xs {
      SubsequenceExtend(xs, ys);
    } else {
      assert zs[..|zs| - 1] == xs;
    }
  }

  /** A subsequence of a prefix is a subsequence of the whole. */
  lemma {:induction false} SubsequenceExtend<T>(xs: seq<T>, ys: seq<T>)
    requires ys != [] && Subsequence(xs, ys[..|ys| - 1])
    ensures Subsequence(xs, ys)
    decreases |xs| + |ys|, 1
  {
    if xs != [] && xs[|xs| - 1] == ys[|ys| - 1] {
      SubsequenceTrim(xs, ys[..|ys| - 1]);
    }
  }

  /** Leaving out the last element keeps a subsequence a subsequence. */
  lemma {:induction false} SubsequenceTrim<T>(xs: seq<T>, ys: seq<T>)
    requires xs != [] && Subsequence(xs, ys)
    ensures Subsequence(xs[..|xs| - 1], ys)
    decreases |xs| + |ys|, 0
  {
    if xs[|xs| - 1] != ys[|ys| - 1] {
      SubsequenceTrim(xs, ys[..|ys| - 1]);
    }
    if xs[..|xs| - 1] != [] {
      SubsequenceExtend(xs[..|xs| - 1], ys);
    }
  }
}
