# World diplomatic news: the aggregation core

This project models, in Dafny, the news-aggregation pipeline of the
`GET /api/news` handler in `server.js`. It has two parts.

1. The **normalizer** turns one raw feed entry and the descriptor of its source
   into a `NewsItem`:
   - a missing or empty title becomes `Без наслов`;
   - the description is the entry's `contentSnippet` with every tag removed by
     the regular expression `<[^>]*>?`, cut to 120 characters and always
     followed by `...`;
   - a missing or empty link becomes `#`;
   - a missing or empty date becomes `Денес`;
   - the source name and color are copied over.
2. The **aggregator** walks the fixed registry of five feeds (UN, NATO, EU,
   USA, UK) in order. For every feed that was fetched and parsed it appends at
   most the first three normalized entries. A feed whose fetch or parse threw is
   skipped by the empty `catch`. The answer is the first fifteen items.

Files:
- `wrappers.dfy` (module `Wrappers`): `Option` and `Min`.
- `normalize.dfy` (module `Normalizer`): the entry, source and item types, the
  tag stripper, the description and `Normalize`.
- `aggregate.dfy` (module `Aggregator`): the registry, one source's
  contribution, the functional specification `Collect`/`NewsResponse`, the
  handler loop `HandleNews` proved equal to it, and the aggregation lemmas.

Modelling decisions:
- JavaScript truthiness: every text field of a raw entry is an
  `Option<string>`. `None` (absent) and `Some("")` both take the fallback.
- The fetch `parser.parseURL(source.url)` is replaced by an input: one
  `FetchOutcome = Option<seq<RawEntry>>` per registry entry, aligned with it.
  `None` stands for any exception thrown by the fetch, the parse or the access
  to `feed.items`.
- The date formatting `new Date(d).toLocaleDateString('mk-MK', …)` is a
  parameter `formatDate: string -> string`. The code sends every non-empty
  `pubDate` through it, including dates that do not parse (JavaScript then
  yields the text `Invalid Date`, it does not throw).
- The tag stripper `StripTags` follows the regex scan from left to right.
  At a `<` the match takes that character, then every character that is not
  `>`, then one `>` if there is one, and all of it is dropped. Every other
  character is kept. `ScanTags` is an independent two-state scanner, and
  `StripTagsIsScanner` proves the two agree.

## Model

| member | source | states |
|---|---|---|
| `Normalizer.SkipTag` | server.js:105 | the `[^>]*>?` tail of a match leaves a suffix of its input, and nothing at all when the input holds no `>` |
| `Normalizer.StripTags` | server.js:105 | the stripped text contains no `<` and is no longer than the input |
| `Normalizer.StripTagsIsScanner` | server.js:105 | the regex-driven stripper equals a two-state in-tag/out-of-tag scanner on every input |
| `Normalizer.ScanInsideTag` | server.js:105 | inside a tag, the scanner drops exactly what one regex match drops after its `<` |
| `Normalizer.StripTagsPlain` | server.js:105 | text without `<` is left unchanged, so a `>` that no `<` opened survives |
| `Normalizer.StripTagsIdempotent` | server.js:105 | stripping the stripped text changes nothing |
| `Normalizer.StripTagsPlainPrefix` | server.js:105 | a prefix without `<` is kept as is and the rest is stripped on its own |
| `Normalizer.SkipTagAppend` | server.js:105 | a match starting in `x` ends in `x` when `x` holds a `>`, otherwise it runs on into what follows |
| `Normalizer.ClosedTagRemoved` | server.js:105 | a closed tag `<…>` is removed with both brackets and the text after it is stripped independently |
| `Normalizer.UnclosedTagRemovesRest` | server.js:105 | an unclosed `<` removes everything from it to the end of the string |
| `Normalizer.Substring` | server.js:105 | `substring(0, n)` is a prefix of length min(length, n) |
| `Normalizer.Description` | server.js:105 | the description has length min(stripped length, 120) + 3, is at most 123 long, ends with `...`, starts with a prefix of the stripped snippet, and holds no `<` |
| `Normalizer.ShortDescriptionKeepsText` | server.js:105 | a snippet of at most 120 characters without `<` is kept whole, and `...` is still appended |
| `Normalizer.EmptyDescription` | server.js:105 | a missing or empty snippet gives the description `...` |
| `Normalizer.Normalize` | server.js:103-110 | title is the raw title when truthy and `Без наслов` otherwise, never empty; description obeys the 123-character, no-`<` rule; link is the raw link when truthy and `#` otherwise, never empty; pubDate is the formatted date when truthy and `Денес` otherwise; source and color are the descriptor's name and color |
| `Aggregator.RegisteredSources` | server.js:11-17 | the registry holds exactly five descriptors, in order UN, NATO, EU, USA, UK, with the source's URLs and colors |
| `Aggregator.NormalizeAll` | server.js:103-110 | the `map` keeps the number of entries, and every item carries the source's name and color |
| `Aggregator.NormalizeAllAt` | server.js:103-110 | item `i` of the map is the normalization of entry `i` |
| `Aggregator.SourceItems` | server.js:101-112 | a failed source adds nothing; a fetched one adds min(entries, 3) items, never more than 3, all tagged with that source's name and color |
| `Aggregator.SourceItemsAt` | server.js:103 | a source's item `i` is the normalized entry `i` of its feed, for the first three entries, in feed order |
| `Aggregator.Collect` | server.js:99-113 | the concatenation of the per-source results over a registry of N sources has at most 3·N items |
| `Aggregator.NewsResponse` | server.js:114 | the answer has min(collected, 15) items and is a prefix of the per-source concatenation |
| `Aggregator.HandleNews` | server.js:98-115 | the loop over the registry, skipping failed sources and slicing to 15, returns exactly `NewsResponse` |
| `Aggregator.CollectAppend` | server.js:100 | aggregating two registries in sequence concatenates their results |
| `Aggregator.CollectStep` | server.js:111 | one turn of the loop appends the items of the current source to what came before |
| `Aggregator.CollectSplit` | server.js:100 | cutting the registry at any point cuts the result at the matching point |
| `Aggregator.CollectGrouped` | server.js:100-111 | the result is the items of the sources before `k`, then those of source `k`, then those after, so output is grouped by source in registry order; with `SourceItems`' bound this gives at most 3 items from each source |
| `Aggregator.CollectAroundFailed` | server.js:112 | a failed source leaves nothing between its neighbours' items |
| `Aggregator.FailedSourceIgnored` | server.js:101-112 | with source `k` failed, the collected items equal those of the registry with `k` removed |
| `Aggregator.FailedSourceIgnoredInResponse` | server.js:101-114 | with source `k` failed, the answer equals the answer for the registry with `k` removed |
| `Aggregator.AllFailedIsEmpty` | server.js:101-114 | when every source fails, the answer is the empty list |
| `Aggregator.AllFullCount` | server.js:103-114 | when every source yields at least 3 entries, each contributes exactly 3 and the answer has min(15, 3·N) items |
| `Aggregator.ItemsFromRegistry` | server.js:108-109 | every collected and every returned item has the name and color of some registry entry |
| `Aggregator.RegisteredSourcesFitCap` | server.js:11-17 | with the five registered sources the 15-item cap never removes anything |
| `Aggregator.RegisteredSourcesAllFull` | server.js:11-17 | with the five registered sources all yielding at least 3 entries, the answer has exactly 15 items |
| `Aggregator.SingleSourceResponse` | server.js:99-114 | with a single source the answer is exactly that source's items |
| `Aggregator.SingleSourceExample` | server.js:103-110 | a UN-only registry whose feed has titles T1..T5 answers with three items titled T1, T2, T3 in order, all tagged `UN` and `#009688` |

## Left out

- The Express application, CORS, routing, `res.json` serialization, `app.listen` and its log line (server.js:1-9, 117-119): HTTP plumbing with no logic of its own.
- The HTML page and its client script `loadNews` (server.js:19-96): presentation only.
- The network fetch and RSS/Atom parsing by `rss-parser` (server.js:102): library I/O, replaced by one fetch outcome per source given as input.
- The locale date formatting (server.js:107): platform locale data, replaced by the parameter `formatDate`; only the `Денес` fallback is verified.
- The `await` points: the loop is strictly sequential and shares no state, so suspension changes nothing observable in the result.
- Non-string field values: a feed field that is truthy but not a string (for example an object handed back by the parser) is not modelled; every field is an optional string.
- Normalizer.Substring: counts Dafny characters (Unicode scalar values), whereas JavaScript's `substring` and length count UTF-16 code units, so text with characters outside the Basic Multilingual Plane may be cut at a different place, even inside a surrogate pair.
