# CleanCopy, modelled in Dafny

CleanCopy is a browser userscript that strips tracking query parameters (`utm_source`,
`fbclid`, `gclid`, ...) from URLs before they reach the clipboard. It has two versions.
`CleanCopy.user.js` sanitizes copy events, `navigator.clipboard.write` and
`navigator.clipboard.writeText`. The older `script.js` sanitizes copy events only, with a
shorter blacklist. Both do the same core step: parse the text with `new URL(...)`, call
`url.searchParams.delete(name)` for every blacklisted name, and take `url.href`.

This project models that core:

- `search_params.dfy` (module `SearchParams`): the name-value list of a URLSearchParams
  object. `Delete` is `delete(name)`: it removes every tuple with that name (section 6.2 of
  the WHATWG URL Standard). `DeleteEach` runs the deletions one after another, like a
  `forEach` loop. `Keep` is a reference filter by a set of names. The lemmas prove that
  the loop equals the filter, so the order of the blacklist does not matter. They also
  prove that filtering is idempotent and that survivors keep their values and their order.
- `urls.dfy` (module `Urls`): URL records and URL objects. `Serialize` follows the URL
  serializer: the part before the query, then `?query` if the query is not null, then
  `#fragment` if the fragment is not null. The URLSearchParams update steps set the query
  to the serialized list, or to null when that serialization is the empty string. They run
  after every `delete`, even one that removed nothing. Class `Url` is the mutable URL object,
  and `DeleteAll` is the deletion loop.
- `browser.dfy` (module `Browser`): JavaScript values, copy events with their
  `clipboardData`, Blobs and ClipboardItems.
- `clean_copy.dfy` (module `CleanCopy`): `sanitizeText`, the copy listener, and the
  `write` and `writeText` wrappers.
- `legacy_script.dfy` (module `LegacyScript`): the copy listener of `script.js`.

The browser's URL parser and its application/x-www-form-urlencoded parser and serializer
are not reproduced. They are the three function fields of a `UrlApi` value, which every
operation takes as a parameter. So the model never guesses at percent-encoding, host
normalisation or `+` for spaces. Lemmas about text that is parsed again need three facts
about the host, stated by the predicate `Urls.Coherent`:

- the form-urlencoded parser reads back every list its serializer writes;
- the serializer writes the empty string for the empty list and for no other list (every
  tuple writes at least its `=`), so the update steps null the query exactly when the
  list is empty;
- re-parsing the href of a parsed URL whose query was rebuilt by the update steps gives
  that URL back.

Lemmas whose result depends on how the update steps rewrite the query need
`EmptyOnlyForEmptyList`, and lemmas that parse text again need the codec facts or all of
`Coherent`; everything else holds for any host.

Neither script checks for an absolute-URL pattern before calling `new URL(...)`; the
parser is the only filter. Text it rejects, such as the relative path
`foo/bar?utm_source=x` (no base URL is given), comes back unchanged.

## Model

| member | source | states |
|---|---|---|
| `SearchParams.Keep` | CleanCopy.user.js:77 | the filter keeps a tuple exactly when it occurs in the input and its name is not dropped; it never grows the list |
| `SearchParams.Delete` | script.js:52-54 | after `delete(name)` a tuple is present iff it was present before and is not named `name` |
| `SearchParams.DeleteRemovesEveryOccurrence` | script.js:52-54 | `delete` removes every occurrence of the name, duplicates included: the length drops by the number of occurrences and none is left |
| `SearchParams.KeepAppend` | CleanCopy.user.js:77 | filtering distributes over concatenation, so pairs that came first stay first |
| `SearchParams.KeepIdempotent` | CleanCopy.user.js:77 | filtering a filtered list again changes nothing |
| `SearchParams.KeepUnchanged` | CleanCopy.user.js:77 | the filter leaves a list unchanged iff no name in it is dropped |
| `SearchParams.DeleteEach` | CleanCopy.user.js:77 | the `forEach` of deletions keeps a tuple exactly when it was present and its name is in none of the deleted names |
| `SearchParams.DeleteEachIsKeep` | CleanCopy.user.js:56-58 | the deletions run one after another equal the filter by the set of blacklisted names |
| `SearchParams.DeleteOrderIrrelevant` | CleanCopy.user.js:77 | two blacklists with the same names, in any order and with any repeats, delete the same tuples |
| `SearchParams.DeleteEachIdempotent` | CleanCopy.user.js:77 | running the deletion loop a second time changes nothing |
| `SearchParams.KeptAt` | CleanCopy.user.js:77 | a surviving tuple at index i lands, value unchanged, at the index equal to the number of survivors before it |
| `SearchParams.KeptInOrder` | CleanCopy.user.js:77 | a surviving tuple that comes later in the input lands at a later index in the output |
| `Urls.UpdatedQueryNull` | CleanCopy.user.js:77 | with a serializer that writes "" only for the empty list, the update steps null the query exactly when the list is empty |
| `Urls.SerializeSplits` | CleanCopy.user.js:78 | the href can be read back: with no '?' or '#' before the query and no '#' inside it, the first '#' starts the fragment and the first '?' before it the query, giving the same record; this shows only that the serializer loses no information, since `Split` is not the host's parser |
| `Urls.Url.Href` | script.js:57 | `href` is the URL serializer applied to the object's current record, so it reflects every deletion made so far |
| `Urls.AfterDeleting` | CleanCopy.user.js:76-78 | the deletions change only the query: the part before it and the fragment are kept |
| `Urls.SearchListAfterUpdate` | CleanCopy.user.js:77-78 | given a round-tripping form-urlencoded codec, the rewritten query parses back to the list it was built from |
| `Urls.AfterDeletingStrips` | CleanCopy.user.js:76-78 | after the deletions the URL's query holds exactly the non-deleted tuples, in order, and none with a deleted name |
| `Urls.AfterDeletingIdempotent` | CleanCopy.user.js:76-78 | deleting the same names from the resulting URL again gives the same URL |
| `Urls.Url.constructor` | CleanCopy.user.js:76 | a new URL object stands for the parsed record, and its searchParams list is the parsed query (empty when the query is null) |
| `Urls.Url.Delete` | CleanCopy.user.js:77 | `searchParams.delete(name)` replaces the list by its filtered form and rewrites the query by the update steps |
| `Urls.DeleteAll` | CleanCopy.user.js:56-58 | the `forEach` loop leaves the list deleted name by name in blacklist order, and the query rebuilt from it (untouched for an empty blacklist) |
| `Browser.TypesOf` | CleanCopy.user.js:98 | an item's types, or the empty list when the property is missing |
| `Browser.GetType` | CleanCopy.user.js:101 | `getType` resolves to the item's blob for a type it holds and rejects for any other |
| `Browser.DataTransfer.SetData` | CleanCopy.user.js:48 | `setData` sets the given format's data and leaves the other formats alone |
| `Browser.CopyEvent.PreventDefault` | CleanCopy.user.js:42 | `preventDefault` marks the event's default action as cancelled |
| `CleanCopy.ListedOnce` | CleanCopy.user.js:14-36 | the list names 21 parameters, none twice |
| `CleanCopy.ExtendsLegacyList` | script.js:12-28 | every name of the older 15-name list is in the newer list, so the newer script strips everything the older one does: a tuple it keeps, the older one keeps too |
| `CleanCopy.SanitizeText` | CleanCopy.user.js:72-86 | a non-string or empty input is returned as given; text the URL parser rejects is returned unchanged; a string stays a string; the result is the href after deleting every blacklisted name |
| `CleanCopy.SanitizedUrlIsClean` | CleanCopy.user.js:14-36 | the sanitized href parses back to the same URL with a query of exactly the non-blacklisted tuples, in their order, and no blacklisted name |
| `CleanCopy.SanitizeIdempotent` | CleanCopy.user.js:72-86 | sanitizing the sanitized text gives the same text |
| `CleanCopy.OnCopy` | CleanCopy.user.js:40-70 | `preventDefault` is always called; `text/plain` gets "" for no selection, the selection itself when it is not a URL, else the sanitized href; no other format changes |
| `CleanCopy.SanitizeItem` | CleanCopy.user.js:97-112 | among items whose types are distinct, valid MIME types, an item is rebuilt iff it lists at least one type (`new ClipboardItem({})` throws) and every listed type can be read; the new item has the same set of types, each listed once; only `text/plain` gets sanitized text, and every other blob is passed through as is |
| `CleanCopy.Write` | CleanCopy.user.js:92-119 | for items whose types are distinct, valid MIME types: when every item can be rebuilt, `write` receives one sanitized copy per item, in order; when any `getType` fails or any item lists no type, it receives the original data |
| `CleanCopy.WriteText` | CleanCopy.user.js:124-134 | `writeText` receives the sanitized text; a non-string is passed on as given |
| `CleanCopy.StripsTrackingExample` | CleanCopy.user.js:72-86 | a URL whose query parses to utm_source=x, id=5, fbclid=y (as in `https://example.com/?utm_source=x&id=5&fbclid=y`), with a serializer that writes "" only for the empty list, comes out as its base, `?` and the serialization of id=5 alone |
| `CleanCopy.NullsEmptyQueryExample` | CleanCopy.user.js:72-86 | a URL whose only parameter is blacklisted (as in `https://example.com/?utm_source=x`), with a serializer that writes "" only for the empty list, comes out as its base alone: the emptied query is dropped with its `?` |
| `LegacyScript.ReturnsEarly` | script.js:35-47 | the listener returns early iff the content is missing, empty or not a URL |
| `LegacyScript.OnCopy` | script.js:33-58 | on an early return neither `preventDefault` nor `setData` happens; otherwise both do, and `text/plain` receives the href with the blacklisted names deleted |
| `LegacyScript.CopiedUrlIsClean` | script.js:12-28 | the copied href parses back to the URL whose query holds every tuple not named in the 15-name list, in order, and none that is |
| `LegacyScript.ShortListExample` | script.js:52-54 | duplicated `utm_source` tuples are all removed, while `si` and `share`, absent from the shorter list, survive in their order |

## Left out

- The WHATWG URL parser, the application/x-www-form-urlencoded parser and serializer, and how the part of a URL before its query is serialized. These are browser code, not part of this model. They are parameters (`UrlApi`, `UrlRecord.base`), so percent-encoding, `+` for spaces and host normalisation are not modelled.
- The round-trip lemmas assume facts about the host that nothing here proves of a browser. `CleanCopy.SanitizeIdempotent`, `CleanCopy.SanitizedUrlIsClean` and `LegacyScript.CopiedUrlIsClean` assume all of `Urls.Coherent`. `Urls.SearchListAfterUpdate`, `Urls.AfterDeletingStrips` and `Urls.AfterDeletingIdempotent` assume its two codec facts, `QueryRoundTrips` and `EmptyOnlyForEmptyList`.
- `Urls.UpdatedQueryNull`, `CleanCopy.StripsTrackingExample` and `CleanCopy.NullsEmptyQueryExample` assume `Urls.EmptyOnlyForEmptyList`: with a serializer that wrote a non-empty string for the empty list, an emptied query would keep its `?`.
- Console logging and the userscript metadata headers.
- Event registration (`document.addEventListener`), `document.getSelection()` and `e.target.innerHTML`: these are inputs, a selection `Option<string>` and `CopyEvent.targetHtml`.
- The checks that install the wrappers: `navigator.clipboard`, `write?.bind` and `writeText?.bind`, and the catch at CleanCopy.user.js:137-139. The model describes the wrappers once they are installed.
- The outer catch of the CleanCopy copy listener (CleanCopy.user.js:67-69) only logs. In the model `clipboardData` is always present and no step throws, so it is never reached. The same holds for the catch of the `writeText` wrapper (CleanCopy.user.js:130-132): `sanitizeText` catches its own errors.
- The async structure of the `write` wrapper: `Promise.all`, `await` and `Blob.text()` decoding. Blobs carry their text directly. The failures modelled are a rejected `getType` and the TypeError of `new ClipboardItem({})` for an item without types; a rejected `blob.text()` is not.
- CleanCopy.SanitizeItem: the `ClipboardItem` constructor also throws a TypeError when a key of `newMap` does not parse as a MIME type, or when two keys parse to the same MIME type (`text/plain` and `TEXT/PLAIN`). The model does not check MIME syntax, so for such an item it returns a rebuilt copy where the source's constructor throws. Items built by the browser always list distinct, serialized MIME types.
- CleanCopy.Write: because of that constructor check, an item with a key that is not a MIME type, or with two keys for the same MIME type, makes the source's catch pass the original data to `write`. The model sends a sanitized copy instead.
- CleanCopy.SanitizeItem: the new item's types are built in first-occurrence order (the insertion order of `newMap`'s keys), but the contract states only the same set of types, each listed once, not that order.
- `DataTransfer.setData` format normalisation (lower-casing, `text` for `text/plain`): both scripts pass `text/plain` literally.
