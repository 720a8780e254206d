# Met record pipeline, modelled in Dafny

This project models the record pipeline of `database/met-auto.js` (class `MetArtAutomation`): the
batch job that asks the Metropolitan Museum's collection API for highlighted European paintings,
fetches each object record, keeps the complete ones, turns each into the local painting record
(year text, a Chinese style label, a Chinese description, a provenance block), drops those whose
title and artist are already in the local collection, and appends the rest to the collection.

The network and the files are taken out. The search response is an `Option<seq<int>>` (`None`
for every failure the source catches: transport error, non-OK status, unparsable body, null
`objectIDs`). The detail responses are a `map<int, RemoteRecord>` (an identifier missing from the
map is a failed request). The existing collection is a sequence passed in.

JavaScript truthiness is written out in `Records`: a string field counts only when present and
non-empty, and `objectBeginDate` counts only when present and not `0`.

Modules, one per component:

- `Wrappers`: the `Option` type.
- `Strings`: the JavaScript built-ins used by the pipeline. `Includes` is `String.prototype.includes`, proved equal to "occurs at some index". `Join` is `Array.prototype.join`, with `Split` undoing it on non-empty lists of separator-free parts. `IntToString` is `Number.prototype.toString` for integers, with `ParseInt` reading its text back to the same integer.
- `Records`: the object record as fetched, the local painting record, and truthiness.
- `Fetch`: the truncation of the search result and the completeness check of the detail fetcher.
- `Style`: `inferArtStyle`. The method walks the medium table with a loop and `break`. It is proved equal to the function `StyleOf`, which the lemmas characterise.
- `ChineseDescription`: `generateChineseDescription`. The method builds the text step by step. It is proved equal to the function `Description`, whose layout the lemmas pin down.
- `Transform`: `transformToLocalFormat` and `isDuplicate`.
- `Automation`: the item loop and merge of `runAutomation`. The method is proved equal to the function `NewPaintings`, which the lemmas characterise.

## Model

| member | source | states |
|---|---|---|
| `Fetch.SliceTo` | database/met-auto.js:22 | `slice(0, limit)` returns a prefix of the identifiers of length `min(limit, n)`. A negative limit counts back from the end, as in JavaScript. |
| `Fetch.SearchHighlightPaintings` | database/met-auto.js:11-27 | A failed search gives the empty list. Otherwise the result is a prefix of the returned identifiers, of length at most the limit. |
| `Fetch.GetArtworkDetails` | database/met-auto.js:40-47 | A record comes back exactly when it was fetched and its image, title and artist are all non-empty. It then comes back unchanged; otherwise the result is absent, never a partial record. |
| `Style.PeriodSuffix` | database/met-auto.js:96-101 | The qualifier is Impressionism exactly for 1870..1900 (so 1900 is Impressionism). It is Modernism exactly for 1901..1950, Renaissance exactly for 1400..1600, and empty for every other year. |
| `Style.BaseStyleIsFirstMatch` | database/met-auto.js:76-93 | The base label is table entry k's label exactly when entry k is the first entry, in declaration order, whose key occurs in the medium. It is `绘画` exactly when no key occurs. |
| `Style.InferArtStyle` | database/met-auto.js:75-104 | The loop with `break`, followed by the year chain, computes `StyleOf`: the first-match base label followed by the period qualifier of a truthy begin year. |
| `Style.StyleHasAtMostOneQualifier` | database/met-auto.js:95-103 | The style is the base label alone or followed by exactly one of the three qualifiers. A qualifier appears only when the begin year is truthy. |
| `Style.OilOnCanvas1880` | database/met-auto.js:76-98 | Medium "Oil on canvas" with begin year 1880 gives `油画 · 印象派`. |
| `Style.NoMediumNoYear` | database/met-auto.js:85-97 | A missing medium is read as `''`. With no truthy year, the style is the default `绘画` alone. |
| `Strings.IncludesIff` | database/met-auto.js:89 | The left-to-right scan standing for `medium.includes(key)` is true exactly when the key occurs at some index of the medium. |
| `ChineseDescription.TagTerms` | database/met-auto.js:65 | The terms are the first `min(3, n)` tag terms, in order. An absent term is rendered as the empty string. |
| `ChineseDescription.GenerateChineseDescription` | database/met-auto.js:52-72 | The step-by-step `+=` construction produces `Description(r)`. That is the same string for the same record. |
| `ChineseDescription.DescriptionFrame` | database/met-auto.js:53-69 | Every description begins with `《title》是<artist>的<medium>作品` and ends with `。这件作品现藏于纽约大都会艺术博物馆。`. The artist falls back to `未知艺术家` and the medium to `材质未知`. |
| `ChineseDescription.YearClauseMarker` | database/met-auto.js:60-62 | The character after the opening sentence is `，`, which opens the year clause, exactly when `objectBeginDate` is truthy. |
| `ChineseDescription.YearClauseNamesYear` | database/met-auto.js:61 | When the year clause is present, the digits it carries read back as the begin year. |
| `ChineseDescription.TagClauseMarker` | database/met-auto.js:64-69 | After the year clause the text continues with `。作` (the tag clause) exactly when tags are present and non-empty. Otherwise it continues with `。这` (the closing). |
| `ChineseDescription.TagClauseListsFirstThree` | database/met-auto.js:64-66 | The tag clause starts `。作品主题涉及`. Cutting the rest at `、` gives between one and three terms: the first tag terms, in order. This holds when none of the first three terms contains `、`. |
| `Strings.SplitJoin` | database/met-auto.js:66 | Joining terms free of the separator and cutting at it again gives the terms back. |
| `Strings.IntToStringRoundTrip` | database/met-auto.js:112 | The decimal text standing for `toString()` of the begin year parses back to the same integer. |
| `Records.OrElse` | database/met-auto.js:53-56 | `field || fallback` on a string field: the field's value when it is present and non-empty, the fallback otherwise (also used for the medium at line 85 and the free-text date at line 112). |
| `Transform.YearText` | database/met-auto.js:112 | The year is the begin date's decimal text `IntToString(objectBeginDate)` (which parses back to the begin date) when it is truthy. Otherwise it is `objectDate` when truthy, and otherwise `未知`. |
| `Transform.TransformToLocalFormat` | database/met-auto.js:107-123 | Image, title and artist are copied verbatim. The painting has all three non-empty exactly when the record is complete. Year, style and description are the derived values. The metadata names the museum `大都会艺术博物馆` and carries the record's `objectID`, `isPublicDomain` and `department`. |
| `Transform.IsDuplicate` | database/met-auto.js:126-131 | True exactly when some existing painting has the same title and the same artist. |
| `Transform.DuplicateIsExactMatch` | database/met-auto.js:126-131 | With "A" by "B" on file: "A" by "B" is a duplicate. "A" by "C" and "a" by "B" are not, since matching is case-sensitive with no normalisation. |
| `Automation.Candidate` | database/met-auto.js:164-167 | An identifier yields a painting exactly when its fetch succeeded and the record is complete. That painting is the transformed record and has image, title and artist. |
| `Automation.RunAutomation` | database/met-auto.js:150-188 | No identifiers ends the run with nothing processed. Otherwise the loop collects exactly `NewPaintings`. If that is empty, nothing is merged. If not, the merged list is `existing ++ new`: existing is an untouched prefix and the length is the sum. |
| `Automation.NewPaintingsAppend` | database/met-auto.js:160-175 | Collecting over two runs of identifiers in sequence gives the two results concatenated, so processing order is kept. |
| `Automation.NewPaintingsMembers` | database/met-auto.js:160-175 | A painting is collected exactly when some identifier yields it as a complete transformed record that duplicates nothing in the existing collection. |
| `Automation.NewPaintingsAreSound` | database/met-auto.js:160-175 | Every collected painting has non-empty image, title and artist, and a metadata block naming the museum. None duplicates an existing painting. |
| `Automation.NewPaintingsBounded` | database/met-auto.js:160-175 | At most one painting is collected per identifier. |
| `Automation.RepeatedIdentifierAddedTwice` | database/met-auto.js:170-175 | Duplicates within the new batch are not filtered: an identifier listed twice adds its painting twice. |
| `Automation.OneValidOneIncomplete` | database/met-auto.js:151-175 | For identifiers `[1, 2]`, where only 1 yields a complete record not already on file, exactly that one painting is collected. |
| `Automation.EmptySearchProcessesNothing` | database/met-auto.js:151-155 | A failed or empty search leaves no identifiers. By `RunAutomation`'s contract, the run then ends with `NoIdentifiers`. |

## Left out

- The HTTP requests, status checks and JSON parsing of both fetchers (database/met-auto.js:14-19, 32-37): network I/O. Their outcomes are the `search` and `details` inputs.
- Reading `paintings.js`, the regular-expression extraction and the `eval` (database/met-auto.js:139-148): file I/O and dynamic evaluation. The existing collection is an input sequence.
- Writing `paintings-enhanced.js` (database/met-auto.js:191-203): a locale-dependent timestamp, `JSON.stringify` and a file write. `RunAutomation` returns the merged collection that would be written, so there is no serialisation round trip to state.
- The 200 ms pause and all console output: timing and logging only. In the code the pause is reached only after a painting is added, because `continue` skips it.
- The unused `date` local of `generateChineseDescription` and the unused `processedIds` set: neither affects any result. For the same reason `MetArtAutomation` is not a class here: its two fields are never read by the modelled logic.
- `script.js`: DOM updates, `Math.random` selection and timers, not part of this model.
- `Strings.IntToString`: renders every integer in plain decimal. JavaScript switches to exponent notation at 10^21, far outside any year. Non-integer begin dates are not modelled.
- `ChineseDescription.TitleText`: an absent title prints as `undefined`. A JSON `null` title, which JavaScript prints as `null`, is not distinguished from an absent one. Only complete records reach the description in a run, so this never shows there.
- A tag entry that is itself `null` would make `tag.term` throw and end the run through the top-level catch. Tags are modelled as objects whose `term` may be absent.
- Repeated fetches of the same identifier are assumed to return the same record: the detail responses are a map.
