# Anime-site adapters: a verified model of their post-scan logic

This project models two scraper adapters in Dafny and proves properties of
the model. `OkAnime.js` serves ok.okanime.xyz; `animeblkom.js` serves
animeblkom. Each adapter exposes four entry points: search, series
details, the episode list and stream extraction. Each entry point pulls
captures out of HTML (or JSON) with regular expressions, then assembles
result records from them.

The model covers everything after the scans: turning captures into
entities, choosing the sentinel texts, the fallback tiers, filtering and
ordering. It also covers the HTML entity decoder that both adapters apply
to extracted text. Inputs are standardised as follows:
- Scan outputs are inputs: `Option` for a single match, a sequence for a
  global scan.
- The outcome of every fetch is an input `Result`: the page, or the
  message of the error it threw.
- Text is a sequence of UTF-16 code units (`JsText.CodeUnit`), as in
  JavaScript. This makes `String.fromCharCode`'s reduction modulo 2^16
  exact.

Modules:
- `JsText` (`js_text.dfy`): the string built-ins the adapters use.
  - `trim` uses ECMAScript's exact white-space and line-terminator set.
  - `replace(/lit/g, ...)`, `startsWith` and `join`.
  - Decimal rendering of integers.
  - UTF-16 well-formedness, which `encodeURIComponent` requires of its
    argument.
- `Catalog` (`catalog.dfy`): `Option`, `Result`, the `Detail` record both
  adapters emit, and order-preserving `Map` and `Filter`.
- `EntityDecoder` (`entity_decoder.dfy`): `decodeHTMLEntities`, one
  algorithm over two tables. `Decoded` uses the five entries of
  `OkAnime.js`; `DecodedWithNbsp` uses the six of `animeblkom.js`, whose
  sixth entry turns `&nbsp;` into a space.
- `OkAnime` (`okanime.dfy`) and `AnimeBlkom` (`animeblkom.dfy`): one
  section per entry point.
  - Source functions that update variables in loops, such as pushing
    results, back-filling thumbnails or reassigning the episode count, are
    methods with loop invariants.
  - Each method is proved against a specification function. The lemmas
    about that function state what the site integration relies on.

Behaviour of the code that the model keeps as written:
- **Idempotence.** The decoder is not idempotent: `&amp;amp;` decodes to
  `&amp;`, and a second pass gives `&`
  (`EntityDecoder.DecodingNotIdempotent`).
- **Double decoding.** A literal `&` can be decoded twice within one call:
  `&amp;lt;` comes out as `<`, because `&amp;` is replaced before `&lt;`
  (`EntityDecoder.DecodingOrder`).
- **Non-breaking space.** The table of `OkAnime.js` has no `&nbsp;` entry,
  so that adapter leaves `&nbsp;` in its text. The evident table of
  `animeblkom.js` has one and turns it into a plain space
  (`EntityDecoder.NbspDecoders`); as written, its sixth key is a literal
  U+00A0 (see "## Left out").
- **Empty streams.** An empty stream collection is not an error result.
  `animeblkom.js` returns `{streams: []}` when the embed page lists no
  source. `OkAnime.js` throws on an empty list but catches its own error,
  which ends in the same `{streams: []}`.
- **Next-episode hints.** `animeblkom.js` builds the hinted embed URL only
  after the embed page has been fetched, and never uses it, so the hints
  never reach the result. The one effect of the lookup is that
  `encodeURIComponent` can throw, which makes the whole call return
  `null` (`AnimeBlkom.ExtractStreamUrl`).

## Model

| member | source | states |
|---|---|---|
| JsText.Trim | OkAnime.js:21-23 | `trim` never lengthens the text (the rest of what it does is `TrimFacts`) |
| JsText.TrimFacts | OkAnime.js:21-23 | `trim` gives a slice of its input with only white space cut off before and after it; the result is empty exactly for all-white-space input, otherwise has no white space at either end, and already-trimmed text is left alone |
| JsText.StartsWith | OkAnime.js:24 | `startsWith` holds exactly when the prefix agrees with the text code unit by code unit, and the text is then the prefix followed by the rest |
| JsText.ReplaceAll | OkAnime.js:41 | a global literal replacement by text no longer than the pattern never lengthens the text; it is the identity when the pattern's first code unit is absent; it keeps non-empty text non-empty (what it replaces is `ReplaceAllPrefix`, `ReplaceAllNoMatch` and `ReplaceAllFirst`) |
| JsText.ReplaceAllSkip | OkAnime.js:41 | a code unit that cannot start a match is kept and replacement goes on after it |
| JsText.ReplaceAllHit | OkAnime.js:41 | a match at the front is replaced and replacement goes on after it |
| JsText.ReplaceAllMiss | OkAnime.js:41 | text that does not start with the pattern keeps its first code unit, even when that code unit begins a partial match, and replacement goes on after it |
| JsText.ReplaceAllPrefix | OkAnime.js:41 | a front part at none of whose positions an occurrence starts is copied unchanged, and replacement goes on with the rest |
| JsText.ReplaceAllNoMatch | OkAnime.js:41 | text in which no occurrence of the pattern starts is returned unchanged |
| JsText.ReplaceAllFirst | OkAnime.js:41 | the first occurrence of the pattern, after any front part in which no occurrence starts, is replaced by the replacement text, and replacement goes on in the text after that occurrence |
| JsText.ReplaceAllAfter | OkAnime.js:41 | the same for a front part free of the pattern's first code unit |
| JsText.Join | OkAnime.js:97 | joining gives "" for no parts and the part itself for one part; with a non-empty separator it is empty exactly for no parts or a single empty part |
| JsText.DecimalText | OkAnime.js:172 | `${i}` writes at least one digit, only digits, with no leading zero |
| JsText.DecimalRoundTrip | OkAnime.js:172 | reading back the digits of `${i}` gives `i` |
| JsText.DecimalTextInjective | OkAnime.js:172 | distinct numbers are written differently |
| JsText.NoSurrogatesWellFormed | animeblkom.js:148-149 | text without surrogates is accepted by `encodeURIComponent` |
| Catalog.Map | animeblkom.js:60 | `map` keeps the length and applies the function at every position |
| Catalog.Filter | animeblkom.js:61 | `filter` keeps only elements satisfying the test, drawn from the input, and is empty exactly when no element passes |
| Catalog.FilterAppend | animeblkom.js:59-61 | filtering a concatenation filters each part |
| EntityDecoder.EntityNames | OkAnime.js:240-246 | the named table is `&quot;`, `&amp;`, `&apos;`, `&lt;`, `&gt;`, in key order, mapped to `"`, `&`, `'`, `<`, `>`; the table of animeblkom.js adds `&nbsp;` mapped to a space |
| EntityDecoder.FromCharCode | OkAnime.js:238 | `String.fromCharCode` keeps a number below 2^16 as its own code unit and never gives a code unit above the number |
| EntityDecoder.FromCharCodeWraps | OkAnime.js:238 | numbers 2^16 apart give the same code unit |
| EntityDecoder.NumericRefLength | OkAnime.js:238 | a positive length is that of a leading `&#`, a maximal non-empty digit run and `;` (the converse is `NumericRefFound`) |
| EntityDecoder.NumericRefFound | OkAnime.js:238 | a leading `&#`, a non-empty digit run and `;` are recognised as one reference of exactly that length |
| EntityDecoder.NumericRefStep | OkAnime.js:238 | a leading numeric reference becomes the single code unit `String.fromCharCode` gives for its digits, and the pass goes on with the text after it |
| EntityDecoder.NumericRefsNoRefPrefix | OkAnime.js:238 | a front part at none of whose positions a numeric reference starts is copied unchanged, whatever `&` it holds, and the pass goes on with the rest |
| EntityDecoder.NumericRefsPlainPrefix | OkAnime.js:238 | the same for a front part without `&` |
| EntityDecoder.NumericRefDecodes | OkAnime.js:238 | a leading numeric reference followed by text without `#` decodes to its code unit followed by that text |
| EntityDecoder.NumericRefs | OkAnime.js:238 | the numeric pass never lengthens the text, leaves text without `&` unchanged and keeps non-empty text non-empty |
| EntityDecoder.NumericRefsWithoutNumberSign | OkAnime.js:238 | without `#` there is no numeric reference and the pass is the identity |
| EntityDecoder.DecodeHtmlEntities | OkAnime.js:237-253 | the method (numeric pass, then one reassigning replacement per entry of the given table) computes exactly the table's decoding, `Decoded` for the table of OkAnime.js and `DecodedWithNbsp` for that of animeblkom.js |
| EntityDecoder.Decoded | OkAnime.js:237-253 | decoded text is never longer than its input, text with no `&` is returned unchanged, and the result is empty exactly for the empty text |
| EntityDecoder.DecodedWithNbsp | animeblkom.js:184-201 | the same three facts for the decoder of animeblkom.js |
| EntityDecoder.DecodedWithNbspChain | animeblkom.js:184-201 | the decoder of animeblkom.js is the decoder of OkAnime.js followed by one global replacement of `&nbsp;` by a space |
| EntityDecoder.NbspDecoders | animeblkom.js:193 | `&nbsp;` decodes to a space in animeblkom.js and is kept as it is in OkAnime.js |
| EntityDecoder.ApplyNamedFacts | OkAnime.js:248-250 | the named passes never lengthen the text, leave text without `&` unchanged and keep it non-empty |
| EntityDecoder.DecodedChain | OkAnime.js:238-250 | decoding is the numeric pass followed by five global replacements in the order quot, amp, apos, lt, gt |
| EntityDecoder.DecodedWithoutNumberSign | OkAnime.js:238-250 | for text without `#` only the named passes act |
| EntityDecoder.DecodesNamedEntity | OkAnime.js:240-250 | each named reference, standing alone, decodes to its own character |
| EntityDecoder.DecodingOrder | OkAnime.js:241-250 | `&amp;lt;` decodes to `<` in one call, because amp is replaced before lt |
| EntityDecoder.DecodingNotIdempotent | OkAnime.js:237-253 | `&amp;amp;` decodes to `&amp;`, and decoding that again gives `&`, so decoding is not idempotent |
| EntityDecoder.DecodesNumericReference | OkAnime.js:238 | `&#65;` decodes to `A` |
| EntityDecoder.DecodesWrappedNumericReference | OkAnime.js:238 | `&#65601;` also decodes to `A`: `String.fromCharCode` reduces modulo 2^16 |
| EntityDecoder.NumericBeforeNamed | OkAnime.js:238-250 | `&#38;quot;` decodes to `"`: the numeric pass produces `&quot;`, which the named pass then replaces |
| EntityDecoder.PassSkipsAfter | OkAnime.js:248-250 | in a named pass, an `&` that begins no occurrence of the reference is kept after `&`-free text, and the pass goes on after it |
| EntityDecoder.DecodesInText | OkAnime.js:237-253 | a reference inside text is decoded in place: `a&lt;b` decodes to `a<b` |
| EntityDecoder.DecodesTwoReferences | OkAnime.js:237-253 | both references of one text are decoded: `&lt;b&gt;` decodes to `<b>` |
| EntityDecoder.KeepsBareAmpersand | OkAnime.js:237-253 | an `&` that begins no reference is kept, and a numeric reference after it is still decoded: `&x&#65;` decodes to `&xA` |
| OkAnime.Absolute | OkAnime.js:24-26 | a link starting with `/` gets the origin in front of it, and dropping the origin gives the link back; any other link is kept as it is |
| OkAnime.PosterUrl | OkAnime.js:41-50 | the thumbnail URL always starts with the storage base, exceeds it by at most the poster path's length, and carries a trimmed path with no backslash unchanged |
| OkAnime.PosterUrlRestores | OkAnime.js:41-50 | an escaped `\u002F` in a poster path otherwise free of backslashes becomes `/` in the thumbnail URL |
| OkAnime.CollectResults | OkAnime.js:15-34 | the container loop pushes exactly the results `Assembled` gives: one per container with both captures, in page order |
| OkAnime.AssembledResults | OkAnime.js:20-33 | one result per container with title and link, none exactly when no container has both; each has the decoded trimmed title, an empty image and no error; its link gets the origin prefix exactly when it starts with `/` |
| OkAnime.FindIndex | OkAnime.js:43-47 | `findIndex` gives the first result whose lowercased, trimmed title equals the key, or -1 exactly when none does |
| OkAnime.FindFrom | OkAnime.js:43-47 | the scan from a position finds the first match at or after it, or reports that there is none |
| OkAnime.FindIndexByTitles | OkAnime.js:43-47 | which result a script record targets depends only on the results' titles |
| OkAnime.GivePoster | OkAnime.js:40-51 | one pass of the script loop sets the storage URL of the record's poster on the result it targets, and on no other |
| OkAnime.FillThumbnails | OkAnime.js:39-52 | the script loop applies the records one after another in page order (`Backfilled`) |
| OkAnime.BackfilledShape | OkAnime.js:49-51 | back-filling keeps the number of results, their order, titles, links and error fields |
| OkAnime.BackfilledUntargeted | OkAnime.js:43-51 | a result that no record targets is unchanged |
| OkAnime.BackfilledTargeted | OkAnime.js:43-51 | a targeted result gets the poster of the last record that targets it |
| OkAnime.SearchResults | OkAnime.js:1-63 | a failed fetch gives the single `Error` placeholder with the message; no assembled result gives the single `No results found` placeholder; otherwise the back-filled results |
| OkAnime.CollectAliases | OkAnime.js:87-93 | the chip loop yields each chip text trimmed and decoded, in order |
| OkAnime.ExtractDetails | OkAnime.js:65-106 | always exactly one record: the all-`N/A` record after a failed fetch, otherwise `DetailOf` of the page |
| OkAnime.DetailSentinels | OkAnime.js:76-99 | a missing description or year becomes `N/A`; aliases are the decoded chips joined by `, `, or `N/A` without chips; the aliases field is empty only for a single white-space chip |
| OkAnime.FirstUsable | OkAnime.js:119-121 | the `\|\|` chain picks the first present, non-empty candidate, and finds none exactly when no candidate qualifies |
| OkAnime.SlugPriority | OkAnime.js:119-123 | the slug comes from the NUXT state, else the bare field, else the URL segment, else there is none |
| OkAnime.EpisodeCount | OkAnime.js:125-167 | a positive count is always an ordinal of the last listing page, the API's `meta.total`, or an ordinal of the series page; a count of 0 means `meta.total` was absent or 0 |
| OkAnime.MaxOrZero | OkAnime.js:137-141 | `Math.max(...xs, 0)` is at least every ordinal and is either 0 or one of them |
| OkAnime.ExtractEpisodes | OkAnime.js:108-183 | a failed fetch or a missing slug gives `[]`; otherwise the tier count N gives exactly N entries, numbered 1 to N in order, with `https://ok.okanime.xyz/watch/{slug}-episode-{i}` links |
| OkAnime.LastPageTierFirst | OkAnime.js:131-144 | a positive last-page maximum is the count, whatever `meta.total` and the series page say, and it is at least every last-page ordinal |
| OkAnime.TotalTierSecond | OkAnime.js:149-157 | when tier one gives 0, a positive `meta.total` is the count, whatever the series page says |
| OkAnime.PageScanTierLast | OkAnime.js:159-167 | when both earlier tiers give 0, the count is the highest watch-link or label ordinal of the series page, or 0 |
| OkAnime.WatchUrlNumber | OkAnime.js:171-174 | each episode's number can be read back from the digits at the end of its link |
| OkAnime.WatchUrlsDistinct | OkAnime.js:170-175 | distinct episodes have distinct links |
| OkAnime.CollectStreams | OkAnime.js:212-224 | the `for...of` loop throws exactly when `data` holds a `null` element, and otherwise yields exactly `Descriptors` of the entries |
| OkAnime.DescriptorsOfEntries | OkAnime.js:213-222 | one descriptor per entry with a truthy file and label, in order, none exactly when there is no such entry; each is titled `[label]`, its URL is the file, its referer header is that same URL, and it has no subtitles |
| OkAnime.ExtractStreamUrl | OkAnime.js:185-235 | a failed fetch, a missing video slug, a missing `data` array or a `null` element of it gives `{streams: []}`; otherwise the streams are the descriptors of the entries |
| AnimeBlkom.OrUnavailable | animeblkom.js:80-82 | `x \|\| 'غير متوفر'` is never empty, and is `x` when `x` is non-empty |
| AnimeBlkom.VisitCard | animeblkom.js:17-43 | the callback yields an item exactly for a card with a non-empty trimmed title and link, and then the item `ItemOf` describes |
| AnimeBlkom.SearchResults | animeblkom.js:1-48 | non-string input gives `[]`; otherwise the items of the listed cards, in page order |
| AnimeBlkom.ItemsOfListed | animeblkom.js:16-44 | the pushed items are exactly the listed cards, filtered in order and each turned into its item |
| AnimeBlkom.SearchItems | animeblkom.js:24-40 | every item comes from a listed card; it has a non-empty decoded title, the trimmed link not made absolute, and the trimmed image or else the sentinel; there are no items exactly when no card is listed |
| AnimeBlkom.ExtractDetails | animeblkom.js:50-88 | no record exactly when description, release date and genres are all empty; otherwise one record with the sentinel for each empty field and the genres trimmed and joined by `, ` |
| AnimeBlkom.Description | animeblkom.js:55-64 | no story container gives the empty description, and a single paragraph is just that paragraph trimmed and decoded |
| AnimeBlkom.DescriptionEmpty | animeblkom.js:56-64 | the description is empty exactly when there is no story container or every paragraph is white space |
| AnimeBlkom.ExtractEpisodes | animeblkom.js:90-112 | no matched anchor gives `[]`; otherwise one episode per anchor with both captures, in document order, carrying that anchor's own link and label number |
| AnimeBlkom.ExtractQualities | animeblkom.js:164-182 | no `sources` array gives `[]`; otherwise the loop yields `QualityList` of the sources |
| AnimeBlkom.QualityListShape | animeblkom.js:176-178 | the list has length twice the number of sources, with each source's label at position 2i and its URL at 2i+1 |
| AnimeBlkom.QualityListRoundTrip | animeblkom.js:176-178 | reading the list back in pairs recovers the sources |
| AnimeBlkom.NextIndex | animeblkom.js:136-144 | the chosen anchor is the first in document order numbered above the current episode; -1 exactly when no anchor is |
| AnimeBlkom.NextFrom | animeblkom.js:136-144 | the scan from a position finds the first greater number at or after it, or reports that there is none |
| AnimeBlkom.FindNextEpisode | animeblkom.js:132-145 | no current episode gives no hint; otherwise there is a hint exactly when some anchor is numbered higher, taken from the first such anchor with trimmed duration and subtitle |
| AnimeBlkom.SortedPicksSmallest | animeblkom.js:136-144 | when anchors are listed in increasing order, the first greater number is also the smallest greater one |
| AnimeBlkom.FirstNotSmallest | animeblkom.js:136-144 | out of order it is not: after episode 2, anchors 5 then 3 select 5 |
| AnimeBlkom.WithNextHints | animeblkom.js:147-150 | without a hint the embed URL is unchanged; with one, it is only extended |
| AnimeBlkom.EmbedUrl | animeblkom.js:116-117 | a present, non-empty `data-source` value yields a non-empty embed URL (the `&amp;` replacement cannot empty it) |
| AnimeBlkom.PlainHintsNeverThrow | animeblkom.js:147-150 | hint texts without surrogates never make `encodeURIComponent` throw |
| AnimeBlkom.ExtractStreamUrl | animeblkom.js:114-162 | no embed URL, a failed embed fetch, or hint text that `encodeURIComponent` rejects gives `null`; otherwise the streams are exactly the embed page's qualities, whatever the hints |

## Left out

- Network access (`fetchv2`, `fetch`, `response.text()`, `.json()`) and the request headers: every fetch outcome is an input `Result`, with `Failed(message)` standing for a thrown error.
- JavaScript regular expressions and the `exec`/`matchAll` `lastIndex` mechanics: every scan's captures are inputs. The one exception is the decoder's `&#(\d+);` pass, which is modelled directly.
- `JSON.stringify`: the operations return the records, not their serialisations. `console.*` logging is not modelled.
- `toLowerCase` is the parameter `lower`, and `encodeURIComponent` is the parameter `encode`. Only the throwing condition of `encodeURIComponent` (text that is not well-formed UTF-16) is modelled.
- `parseInt` and `Number` of captured digits are natural numbers, and so is the digit string of a numeric character reference before `String.fromCharCode` reduces it. Number precision beyond 2^53 is not modelled, nor is `Math.max`'s argument-count limit.
- `meta.total` is an `Option<nat>`: absent, or a number whose zero counts as falsy. Other truthy JSON values (strings, fractions) are not modelled. The two API calls of `extractEpisodes` are independent inputs: `lastPage` and `total`.
- The API's `file` and `label` fields are optional strings, truthy when non-empty. Non-string JSON values of those fields are not modelled. An element of `data` is either an object or `null`; a primitive element behaves like an object without either field.
- The search keyword's encoding into the request URL is not modelled. Neither is what `extractDetails`, `extractEpisodes` and `extractStreamUrl` of `animeblkom.js` do when handed something other than a string.
- The table at animeblkom.js:187-194 has lost its entity escapes as written: the first five keys read as the characters they stand for, line 190 is malformed, and the sixth key is a literal U+00A0. The model uses the evident table, the five entries of OkAnime.js plus `&nbsp;` mapped to a space (`EntityDecoder.NamedEntitiesWithNbsp`). `AnimeBlkom.ItemOf`, `AnimeBlkom.VisitCard`, `AnimeBlkom.Description` and `AnimeBlkom.ExtractDetails` decode with it.
- The same loss turns the `replace` at animeblkom.js:117 into an identity as written. The model uses the evident intent, `&amp;` to `&` (`AnimeBlkom.EmbedUrl`). The damaged regular expressions at animeblkom.js:9, 53, 66 and 92 are covered by taking captures as inputs.
- JsText.Trim: its own contract states only that trimming never lengthens the text. Its full meaning, the input's slice between the white space at each end, is stated in `JsText.TrimFacts`, so that proofs mentioning many trimmed texts stay small.
- OkAnime.FillThumbnails: the source assigns `image` on an object inside the results array. The model replaces that element of a sequence; no other reference to the objects exists, so nothing is lost.
