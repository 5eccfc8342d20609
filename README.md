# civitai_client core, modelled in Dafny

This project models the request/response core of the civitai client library.

- **Codec.** The superjson-style envelope codec (`req_data_format` / `resp_data_parse`).
- **Request templates.** The rewriting of request templates that carry page and cursor placeholder marks (`_replace_mark`, `_replace_page`, `_replace_cursor`).
- **Responses.** The reading of a tRPC response (`_resp_postprocess`).
- **Paging.** The two paging generators (`_iter_via_cursor_fn`, `_iter_via_page_fn`).
- **Names.** The name normalisation used to match tags and VAE models (`_norm`, `_model_tag_same`, `_vae_model_same`).
- **Tags.** The `Level` rating flags, the default sort of `iter_tags`, `_query_model_tag`, and the loop in `upsert_model` that builds the tag list of a model without naming one tag twice.

Modules:

- **`Values`**: Python values as an algebraic datatype. This covers the `undefined` sentinel, datetimes and the placeholder marks.
  - Dicts are insertion-ordered entry lists.
  - Python exceptions are a `Result`.
  - `Lookup`, `Store`, `Subscript` and `Assign` give `d[k]` and `d[k] = v` their Python meaning, including `KeyError`, `IndexError`, `TypeError` and negative indices.
- **`SuperJson`**: the codec as functions.
  - `ParseWith` decodes. Its flag `indexLast` selects the code as written (`false`) or the corrected reading of the last path segment (`true`; see Findings).
  - Imperative versions of the decoding loops (`ApplyPath`, `ApplyAll`, `ParseEnvelope`) are proved equal to the functions.
- **`SuperJsonLaws`**: what the codec promises. Encoding records one `meta.values` entry per typed leaf, and decoding the encoding restores the value.
- **`Templates`**: `_replace_mark` and what it guarantees about marks.
- **`Responses`**: `_resp_postprocess`, and its composition with the codec.
- **`Paging`**: the two generators as classes whose `Next` is one step of the generator. The injected `fn` is a finite list of the answers it gives; a call past the end of the list stands for `fn` raising.
- **`Names`**: `_norm` over ASCII, and its characterisation by the words of the lower-cased name.
- **`Tags`**: the rest of the items above.

## Model

| member | source | states |
|---|---|---|
| Values.Subscript | civitai/client/superjs.py:37 | `v[k]` succeeds on a dict exactly when the key is present, and on a list, tuple or string exactly when the index is in range (negative indices count from the end); the result is that entry, item or one-character string; a failure is KeyError on a dict, IndexError for an integer index into a list, tuple or string, and TypeError otherwise |
| Values.Assign | civitai/client/superjs.py:40 | `v[k] = x` succeeds exactly on dicts and lists, and afterwards `v[k]` reads `x`; a list keeps its length and every other item, and a dict keeps its keys in order and every other key's value |
| Values.StoreDistinct | civitai/client/client.py:62-65 | assigning into a dict never creates a second entry under a key |
| SuperJson.ApplyPath | civitai/client/superjs.py:29-40 | the walk over the segments of one path equals `ApplyAt`: `int()` on segments into lists, except the last one; the parser is applied at the last segment; every changed node is stored back into its parent |
| SuperJson.ApplyLast | civitai/client/superjs.py:40 | the parser is looked up before the slot is read, and the result is stored in place of the slot |
| SuperJson.ApplyAll | civitai/client/superjs.py:28-40 | the loop over `meta.values` applies each entry in order and stops at the first error |
| SuperJson.ParseEnvelope | civitai/client/superjs.py:22-50 | the decoder equals `ParseWith`: `json` is required; a falsy `meta` or `values` returns `json` unchanged; a dict of paths is applied; a list must have one element (otherwise AssertionError) and applies that parser to the whole; any other type is a TypeError |
| SuperJsonLaws.FormatNodeLeaves | civitai/client/superjs.py:75-95 | for every value, `_recursion` returns its wire form and assigns `meta[path] = [tag]` for each typed leaf, in visiting order, at the leaf's dotted path; a path that joins to one already assigned overwrites it |
| SuperJsonLaws.StoreAllNew | civitai/client/superjs.py:90 | when the joined paths are distinct, each assignment into `meta` adds a new entry at the end, so `meta` lists the typed leaves one entry each |
| SuperJsonLaws.LeafPaths | civitai/client/superjs.py:89-90 | when dict keys are distinct and contain no dot, the recorded paths have no dot in any segment and are pairwise distinct |
| SuperJsonLaws.MetaDistinct | civitai/client/superjs.py:90 | the joined paths are distinct, so no `meta` entry overwrites another |
| SuperJsonLaws.FormatEnvelope | civitai/client/superjs.py:97-102 | for every untyped root, `json` is the wire form; `meta` is present exactly when some leaf is typed, and `meta.values` holds the assignments for the typed leaves; with distinct, dot-free keys it holds exactly one entry per typed leaf |
| SuperJsonLaws.ParserRestores | civitai/client/superjs.py:16-19 | the parser registered under a formatter's tag undoes that formatter: `undefined` reads back as None, and a date reads back as itself |
| SuperJsonLaws.ParseBare | civitai/client/superjs.py:23-26 | an envelope without `meta` decodes to its `json` |
| SuperJsonLaws.ParsePaths | civitai/client/superjs.py:26-40 | a `meta.values` dict applies its entries, in order, to `json` |
| SuperJsonLaws.ParseRoot | civitai/client/superjs.py:42-45 | a one-element `meta.values` list applies that parser to the whole of `json` |
| SuperJsonLaws.DecodeNode | civitai/client/superjs.py:28-40 | applying the recorded leaves to the wire form of a value gives back the value, with `undefined` read as None |
| SuperJsonLaws.RoundTripWith | civitai/client/superjs.py:22-102 | decoding an encoding restores the value; when the last segment stays a string, this needs that no typed leaf sits directly in a list |
| SuperJsonLaws.RoundTrip | civitai/client/superjs.py:22-102 | as written, the round trip holds for every value without a typed list item |
| SuperJsonLaws.TypedItemFails | civitai/client/superjs.py:31-40 | as written, `{'items': [datetime]}` encodes with the path `items.0`, and decoding it raises TypeError |
| SuperJsonLaws.StringSegmentOnList | civitai/client/superjs.py:35-40 | the last segment `'0'` subscripts the list as a string: TypeError |
| SuperJsonLaws.RoundTripFixed | civitai/client/superjs.py:31-40 | with the last segment converted like the others, the round trip holds for every value whose keys are distinct and dot-free |
| SuperJsonLaws.TypedItemFixed | civitai/client/superjs.py:31-40 | the corrected decoder restores `{'items': [datetime]}` |
| Templates.ReplacePage | civitai/client/client.py:79-80 | no page mark is left after `_replace_page` |
| Templates.ReplaceCursor | civitai/client/client.py:83-84 | no cursor mark is left after `_replace_cursor`, unless the cursor itself is one |
| Templates.KeptMembers | civitai/client/client.py:70-72 | the items kept are exactly those that are not `m_none` |
| Templates.KeptEntriesMembers | civitai/client/client.py:63-65 | the entries kept are exactly those whose value is not `m_none` |
| Templates.ItemsFilterMap | civitai/client/client.py:68-73 | the list and tuple loop drops `m_none` items and rewrites the others in order |
| Templates.EntriesFilterMap | civitai/client/client.py:61-66 | the dict loop drops `m_none` values and rewrites the others under their own keys, in order |
| Templates.NoLeak | civitai/client/client.py:60-76 | when the replacement holds no `mark`, the result holds none anywhere |
| Templates.ReplaceClean | civitai/client/client.py:60-76 | the result contains no `m_none` in any container, and its dict keys stay distinct |
| Templates.Identity | civitai/client/client.py:60-76 | a clean value without the mark is returned unchanged |
| Templates.Idempotent | civitai/client/client.py:60-76 | replacing twice is replacing once |
| Templates.Survive | civitai/client/client.py:60-76 | any other mark is in the result exactly when it was in the input, or the target mark was and the replacement holds it |
| Templates.PageKeepsCursor | civitai/client/client.py:79-80 | filling in the page neither adds nor removes a cursor mark |
| Templates.CursorKeepsPage | civitai/client/client.py:83-84 | filling in the cursor neither adds nor removes a page mark |
| Responses.Contains | civitai/client/client.py:154 | `'error' in x` is defined for dicts (keys), lists, tuples and strings, and is a TypeError otherwise |
| Responses.NotJson | civitai/client/client.py:149-152 | a body that is not JSON returns None on a success status and raises HTTPError otherwise |
| Responses.StatusIgnored | civitai/client/client.py:153-162 | once the body is JSON, the status code plays no part |
| Responses.TopErrorFirst | civitai/client/client.py:154-155 | a top-level `error` raises APIError with the decoded error (or the decoding error), whatever `parse` is |
| Responses.ResultErrorNext | civitai/client/client.py:156-157 | an `error` inside `result` raises APIError with the decoded `result.data` |
| Responses.RawBody | civitai/client/client.py:161-162 | without errors, `parse=False` returns the whole body |
| Responses.ResultRoundTrip | civitai/client/client.py:159-160 | `{'result': {'data': req_data_format(v)}}` returns `v`, with `undefined` read as None |
| Responses.ErrorRoundTrip | civitai/client/client.py:154-155 | `{'error': req_data_format(e)}` raises APIError carrying `e` |
| Paging.FirstStop | civitai/client/client.py:187-188 | the first answer whose cursor is None: every earlier cursor is not None |
| Paging.FalsyCursorGoesOn | civitai/client/client.py:187-188 | only None stops the cursor loop; a falsy cursor such as 0 or `''` does not |
| Paging.CursorPager.Next | civitai/client/client.py:181-188 | each step yields the next item of the current page, or calls `fn` with the last cursor, or ends; the generator ends right after the page whose cursor is None, or when `fn` raises |
| Paging.CursorPager.Drain | civitai/client/client.py:181-188 | draining yields every item of the pages up to and including the first with a None cursor, in order; the first call gets `undefined` and each later call gets the previous cursor |
| Paging.FirstEmpty | civitai/client/client.py:207-208 | the first empty page: every earlier page has an item |
| Paging.PagePager.Next | civitai/client/client.py:198-209 | each step yields the next item of the current page, or calls `fn` with the next page number, or ends after an empty page |
| Paging.PagePager.Drain | civitai/client/client.py:198-209 | draining calls `fn(1), fn(2), …` up to the first empty page and yields all items before it, in order; the empty page adds nothing |
| Paging.FlattenEmptyLast | civitai/client/client.py:207-208 | an empty page adds nothing to the items yielded so far |
| Paging.EmptyFirstPage | civitai/client/client.py:199-208 | an empty first page ends the iteration after one call, with no item |
| Names.NormSpaced | civitai/client/client.py:87-88 | `_norm(x)` is the runs of letters and digits of `x.lower()`, joined by single spaces |
| Names.NormTight | civitai/client/client.py:87-88 | `_norm(x, keep_space=False)` is those runs concatenated |
| Names.TightFromSpaced | civitai/client/client.py:87-88 | the tight form is the spaced form with its spaces removed |
| Names.TagSameImpliesVaeSame | civitai/client/client.py:91-96 | names that match as model tags also match as VAE models |
| Tags.LevelGroups | civitai/client/client.py:48-57 | SFW is 3, NSFW is 28, ALL is 31; SFW and NSFW are disjoint and together make ALL |
| Tags.TagSort | civitai/client/client.py:579-590 | a known entity type keeps a non-empty sort and otherwise defaults to `Most <type>s`; any other type is a ValueError |
| Tags.MatchAt | civitai/client/client.py:628-629 | the position of the first result whose name matches the tag; no earlier result matches |
| Tags.QueryModelTag | civitai/client/client.py:626-634 | returns the first search result whose name matches the tag, or None when no result matches |
| Tags.TagJsonFields | civitai/client/client.py:646-655 | a found tag is sent with its id and name, plus `models: undefined` when it is a category and `isCategory: False` otherwise; a new tag is sent with `id: undefined` and its name |
| Tags.UpsertTags | civitai/client/client.py:641-656 | the loop over `[*tags, category]` builds the entries of `DedupOf`, in order |
| Tags.UpsertTurn | civitai/client/client.py:644-656 | one pass searches the tag and moves `tags_data`, `exist_tag_ids` and `exist_tags` exactly as `Step` does with the tag's candidate, and the appended dict is the new entry's `TagJson` |
| Tags.StepKeeps | civitai/client/client.py:644-656 | one pass keeps `exist_tag_ids` and `exist_tags` equal to the ids and lower-cased names of the entries, and no entry repeats one |
| Tags.DedupDistinct | civitai/client/client.py:641-656 | no two entries share a lower-cased name, and no two found tags share an id |
| Tags.DedupOrder | civitai/client/client.py:641-656 | the entries are the resolved wanted tags in their original order, with some left out |
| Tags.DedupCoversAt | civitai/client/client.py:641-656 | the wanted tag at one given position is represented by an entry with the same lower-cased name or, when it was found, the same id |
| Tags.DedupCovers | civitai/client/client.py:641-656 | every wanted tag is represented by an entry with the same lower-cased name or, when it was found, the same id |

## Left out

- HTTP, sessions, login, cookies, the browser helpers, `whoami`, uploads and the image helpers are not modelled. The per-endpoint methods are out too: they only build request templates and pass them to the functions above.
- `_get` / `_post` and the wrappers `_iter_via_cursor` / `_iter_via_page` are left out: they are HTTP calls. The logic they compose is modelled on its own (`Format`, `Postprocess`, `ReplaceCursor`, `ReplacePage` and the pagers).
- `_format_time` and `dateparser.parse` are the two function fields of a `DateCodec` value, which is a parameter of the codec. The round-trip lemmas require that parsing reads back what formatting writes (`DatesRoundTrip`). Time zones are not modelled. In the program this assumption fails for a naive datetime: `parse_time` makes it aware in local time (civitai/utils/time.py:22-23), `_format_time` writes it as a UTC ISO string (civitai/client/superjs.py:59-61), and `dateparser.parse` reads that back as an aware datetime, which compares unequal to the naive original.
- `Values.ParseInt` models `int()` on an optional sign followed by ASCII digits only. Surrounding whitespace, `_` separators and non-ASCII digits are not accepted.
- `Names.Norm` works on ASCII. Python's `str.lower()` and `\W` are Unicode-aware; the model treats only ASCII letters and digits as word characters and lower-cases only `A`–`Z`.
- Only string dict keys are modelled. The tuples that `req_data_format` passes through unchanged are kept as values.
- In-place mutation of the deep copy in `resp_data_parse` is modelled as rebuilding each changed node and storing it back into its parent. This is the same result, because a copy made from JSON shares no sub-objects.
- Responses.Postprocess: the HTTP response is reduced to its decoded body and whether its status is a success. The `resp` object carried by `APIError` is not modelled.
- Paging: `fn` is a list of the answers it gives. Running past the end stands for `fn` raising. What `fn` does with the cursor or page number is not modelled, but the arguments it receives are recorded.
- Tags.QueryModelTag: the search results are given as a finite list. The lazy paging of `iter_model_tags`, which stops fetching at the first match, is not modelled.
- The rest of `upsert_model`, after the tag list, is left out: it assembles the request and posts it.
- The model follows the code in two places where the helpers' names suggest more:
  - `_replace_page` and `_replace_cursor` replace only their own mark. Other marks stay.
  - `m_none` is dropped from lists and tuples as well as from dicts.

## Findings

| source | as written | input that shows it | evidently intended | confidence | as-written member | corrected member |
|---|---|---|---|---|---|---|
| civitai/client/superjs.py:31-40 | the last segment of a `meta.values` path stays a string, even when its parent is a list | `{'items': [datetime]}`: `req_data_format` records `items.0`, and decoding then subscripts the list `items` with the string `'0'`, which raises TypeError | the last segment is converted with `int()` like the segments before it, so that the value round-trips | not executed | SuperJsonLaws.TypedItemFails | SuperJsonLaws.RoundTripFixed |
