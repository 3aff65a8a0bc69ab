# HolyForge Games website — a verified model of its logic

The HolyForge Games site is a React front end with two serverless endpoints and
three image-generation scripts, two of which are modelled. Most of it is markup.
This project models the parts
that compute something, in Dafny, and proves what they promise:

- **Progress** (`src/hooks/useProgress.ts`). The player's recently played list is
  most-recent-first, capped at four entries and free of duplicates. The
  favourites list is toggled. The record is loaded from and saved to
  `localStorage`.
- **Player console and boot sequence** (`src/components/WasmPlayer.tsx`). The
  console keeps the last five lines. A change of game or theme resets the console
  and the loading flag, then schedules four timer callbacks. These are modelled as
  an ordered list of pending callbacks that fire earliest first. The bouncing
  square's position and velocity step is modelled too.
- **Catalog search** (`src/pages/Games.tsx`). An order-preserving, case-insensitive
  substring filter over title or description.
- **Theme provider** (`src/context/ThemeContext.tsx`). Initial values read from
  storage, the two toggles, the persistence effects, the root class list and the
  `useTheme` guard.
- **SEO component** (`src/components/SEO.tsx`). Defaults, the absolute URL and
  image, the production-host test, and `updateMeta`: find a `<meta>` element by
  selector and update it, or append a new one.
- **Endpoints** (`functions/api/hearts.js`, `functions/api/newsletter.js`). A
  per-game counter table with an upsert-increment, modelled as a
  `map<string, int>`. A validated, idempotent mailing-list insert, modelled as a
  `set<string>`.
- **PNG writers** (`gen-real-images.cjs`, `gen_images.py`). Byte-exact
  construction of the PNG signature, the chunk framing (length, type, data, CRC),
  the 13-byte IHDR and the raw scanlines with filter byte 0. This follows sections
  5.2, 5.3, 11.2.2, 7.2 and 9.2 of the PNG Specification (W3C, Second Edition).
  The module `PngFormat` defines the format once, together with a parser, and
  proves the round trip. `PngJs` and `PngPy` model the two scripts against it.

Functions and lemmas model the code that is pure expressions. Code that works by
mutation is modelled imperatively:

- the player, the square and the theme provider, as classes with `modifies` clauses;
- the SEO document head and the two databases, as classes with `modifies` clauses;
- the Node script's preallocated buffers, as arrays filled by nested loops;
- the Python script's growing lists, as `seq` values that loops in methods extend; the script has no class, so neither does its model.

Each method is proved against a specification function.

Calls into code that is not part of the model become parameters:

- `JSON.parse` and `JSON.stringify`;
- `zlib.crc32`, `zlib.deflateSync` and `zlib.compress`;
- the `Date.now()` cache-buster;
- the floating-point gradient and edge fade of `gen_images.py`.

Storage is a `map<string, string>`.

## Model

| member | source | states |
|---|---|---|
| Progress.Without | src/hooks/useProgress.ts:21 | `filter(id => id !== x)` keeps the other elements in their original order, each as often as before, and drops every occurrence of `x`; the length shrinks by the number of occurrences |
| Progress.Take | src/hooks/useProgress.ts:21 | `slice(0, n)` is the prefix of length `min(n, length)` |
| Progress.RecordPlay | src/hooks/useProgress.ts:18-23 | the played game comes first and occurs exactly once; after it come the previous entries without that game, in order, as many as fit in 4; favourites unchanged |
| Progress.ToggleFavorite | src/hooks/useProgress.ts:25-32 | membership of the game flips; an absent game is appended at the end; a present one loses every occurrence while every other element keeps its order and its number of occurrences; recently played unchanged |
| Progress.WithoutAbsent | src/hooks/useProgress.ts:29 | filtering out an absent element changes nothing |
| Progress.WithoutAppended | src/hooks/useProgress.ts:29-30 | filtering out the element just appended gives the list back |
| Progress.WithoutNoDuplicates | src/hooks/useProgress.ts:21 | filtering keeps a duplicate-free list duplicate-free |
| Progress.TakeNoDuplicates | src/hooks/useProgress.ts:21 | a prefix of a duplicate-free list is duplicate-free |
| Progress.RecordPlayNoDuplicates | src/hooks/useProgress.ts:21 | a duplicate-free recently played list stays duplicate-free after a play |
| Progress.TakeWithoutSubsequence | src/hooks/useProgress.ts:21 | a prefix of a filtered list is a subsequence of the original |
| Progress.RecordPlayKeepsOrder | src/hooks/useProgress.ts:21 | the entries after the first keep their previous relative order |
| Progress.RecordPlayIdempotent | src/hooks/useProgress.ts:21 | playing the same game twice in a row equals playing it once |
| Progress.ToggleFavoriteTwice | src/hooks/useProgress.ts:28-30 | toggling an absent favourite twice restores the record |
| Progress.LoadProgress | src/hooks/useProgress.ts:9-12 | nothing stored, or an empty string, gives two empty lists; otherwise the parsed record |
| Progress.SaveProgress | src/hooks/useProgress.ts:14-16 | the effect writes the serialised record under `hfg-progress`, leaves other keys alone and adds no other key |
| Progress.SaveLoadRoundTrip | src/hooks/useProgress.ts:10-15 | loading what was saved gives the record back when parsing undoes serialising |
| Catalog.Matches | src/pages/Games.tsx:13-14 | a game matches exactly when the lower-cased term occurs somewhere in the lower-cased title or the lower-cased description |
| Catalog.FilterGames | src/pages/Games.tsx:12-15 | every kept game matches and comes from the list; every matching game is kept, as often as it occurs in the list |
| Catalog.FilterIsSubsequence | src/pages/Games.tsx:12-15 | the result is a subsequence of the games, in their original order |
| Catalog.EmptyTermKeepsAll | src/pages/Games.tsx:12-15 | an empty search term returns every game, which is what the reset relies on |
| Catalog.MatchesNarrowing | src/pages/Games.tsx:13-14 | a game matching a term matches every substring of that term |
| Catalog.FilterNarrowing | src/pages/Games.tsx:12-15 | extending the term can only drop games: the longer term's results are a subsequence of the shorter one's |
| Text.StartsWith | src/components/SEO.tsx:22 | `startsWith` holds exactly when the prefix fits and agrees character by character |
| Text.Includes | src/pages/Games.tsx:13-14 | the scan of `includes` finds nothing longer than the string and always finds the empty string |
| Text.ToLower | src/pages/Games.tsx:13-14 | `toLowerCase` keeps the length and lower-cases each character |
| Text.IncludesIffOccurs | src/pages/Games.tsx:13-14 | `includes` holds exactly when the term occurs at some index |
| Text.IncludesTransitive | src/pages/Games.tsx:13-14 | a substring of a substring is a substring |
| Text.IncludesToLower | src/pages/Games.tsx:13-14 | lower-casing both sides preserves `includes` |
| Text.IndexOfChar | src/components/SEO.tsx:38 | the first index of a character, or -1 exactly when it is absent |
| Text.SecondQuotedField | src/components/SEO.tsx:38-40 | `split('"')[1]` contains no quote |
| Text.SecondQuotedFieldOf | src/components/SEO.tsx:38-40 | `split('"')[1]` of `prefix"value"suffix` is `value` |
| WasmPlayer.Last | src/components/WasmPlayer.tsx:16 | `slice(-n)` for `n > 0` has `min(n, length)` elements |
| WasmPlayer.LastOfLast | src/components/WasmPlayer.tsx:16 | trimming to five lines before appending does not change the last five lines after |
| WasmPlayer.AddLog | src/components/WasmPlayer.tsx:15-17 | at most 5 lines; the message is last, after the last ≤4 earlier lines in order |
| WasmPlayer.AddLogIsLastFive | src/components/WasmPlayer.tsx:16 | one `addLog` leaves the last five of the old lines plus the message |
| WasmPlayer.AddLogsKeepsLastFive | src/components/WasmPlayer.tsx:15-17 | any series of `addLog` calls leaves the last five lines written |
| WasmPlayer.BootSequence | src/components/WasmPlayer.tsx:25-45 | four callbacks at increasing delays; only the last one boots, and it logs two lines |
| WasmPlayer.Fire | src/components/WasmPlayer.tsx:25-45 | a callback logs its lines through `addLog`; only the boot callback clears the loading flag and starts the loop |
| WasmPlayer.FireConsole | src/components/WasmPlayer.tsx:26-31 | one callback keeps the last five lines of the console followed by what it logs |
| WasmPlayer.FireAllConsole | src/components/WasmPlayer.tsx:25-45 | firing callbacks in order leaves the last five of all lines logged |
| WasmPlayer.FireAllEndsBooted | src/components/WasmPlayer.tsx:29-34 | once the boot callback has fired last, loading is over and the loop runs |
| WasmPlayer.BootSequenceLines | src/components/WasmPlayer.tsx:25-45 | the sequence logs three timed lines and then the boot callback's two |
| WasmPlayer.BootSequenceCompletes | src/components/WasmPlayer.tsx:25-45 | from a cleared console the full sequence ends with exactly its 5 lines, none dropped, loading false and the loop running |
| WasmPlayer.LoadingUntilBoot | src/components/WasmPlayer.tsx:25-45 | before the 2500 ms callback fires the player is still loading and not looping |
| WasmPlayer.Player.constructor | src/components/WasmPlayer.tsx:19-45 | mounting starts with an empty console, loading, and the four callbacks pending |
| WasmPlayer.Player.Cleanup | src/components/WasmPlayer.tsx:47-50 | cleanup clears every pending callback and stops the loop; console and flag unchanged |
| WasmPlayer.Player.Rerun | src/components/WasmPlayer.tsx:19-51 | a change of game or theme clears the console, sets loading, and schedules the new sequence |
| WasmPlayer.Player.Tick | src/components/WasmPlayer.tsx:25-45 | the earliest pending callback fires; with none pending (after cleanup) nothing changes |
| WasmPlayer.Player.RunPending | src/components/WasmPlayer.tsx:25-45 | letting every pending callback fire gives the state of firing them in order |
| WasmPlayer.Bounce | src/components/WasmPlayer.tsx:70-74 | the velocity is kept or negated, and the position moves by it |
| WasmPlayer.BounceKeepsAxis | src/components/WasmPlayer.tsx:70-74 | the speed stays 4 and the square overshoots an edge by at most one step; an overshooting square is still moving outward, so the next step reverses it and brings it back inside |
| WasmPlayer.Square.constructor | src/components/WasmPlayer.tsx:58-61 | the square starts at (50, 50) moving (4, 4), inside the invariant |
| WasmPlayer.Square.Render | src/components/WasmPlayer.tsx:70-74 | one frame bounces each axis; `dx` and `dy` stay ±4 |
| Theme.InitialTheme | src/context/ThemeContext.tsx:15-18 | the stored theme when non-empty, with no validation, else `dark` |
| Theme.InitialLowPerformance | src/context/ThemeContext.tsx:20-22 | the flag is on exactly when the stored text is `true`; nothing stored means off |
| Theme.ToggleTheme | src/context/ThemeContext.tsx:35-37 | the result is `light` or `dark`, and `dark` exactly when the input was `light` |
| Theme.TogglePerformanceMode | src/context/ThemeContext.tsx:39-41 | the flag is negated |
| Theme.BoolToString | src/context/ThemeContext.tsx:32 | `toString` of a boolean is `true` or `false` |
| Theme.ToggleThemeTwice | src/context/ThemeContext.tsx:35-37 | toggling `light` or `dark` twice gives it back |
| Theme.LowPerformanceRoundTrip | src/context/ThemeContext.tsx:20-33 | saving the flag with `toString` and reading it with `=== 'true'` gives it back |
| Theme.ThemeRoundTrip | src/context/ThemeContext.tsx:15-28 | saving a theme and reading it back gives the same theme |
| Theme.RemoveClass | src/context/ThemeContext.tsx:26 | `classList.remove` leaves exactly the other tokens |
| Theme.AddClass | src/context/ThemeContext.tsx:27 | `classList.add` leaves the old tokens and the new one |
| Theme.ThemeClasses | src/context/ThemeContext.tsx:26-27 | the root class list holds the current theme; `light` and `dark` are absent unless they are the current theme, whatever the stored theme is; other classes are kept |
| Theme.UseTheme | src/context/ThemeContext.tsx:50-55 | without a provider the hook fails with its message; otherwise it returns the context |
| Theme.ThemeProvider.constructor | src/context/ThemeContext.tsx:14-33 | initial values from storage, then both effects applied |
| Theme.ThemeProvider.ApplyTheme | src/context/ThemeContext.tsx:24-29 | the theme effect sets the class list and stores the theme, which reads back unchanged |
| Theme.ThemeProvider.PersistPerformanceMode | src/context/ThemeContext.tsx:31-33 | the flag effect stores the flag, which reads back unchanged |
| Theme.ThemeProvider.ToggleThemeAction | src/context/ThemeContext.tsx:35-37 | the theme toggles and its effect runs |
| Theme.ThemeProvider.TogglePerformanceModeAction | src/context/ThemeContext.tsx:39-41 | the flag is negated and its effect runs |
| Seo.ResolveProps | src/components/SEO.tsx:12-17 | omitted props fall back to the site defaults and type `website` |
| Seo.PageUrl | src/components/SEO.tsx:19 | the URL is the site URL followed by the pathname |
| Seo.AbsoluteImage | src/components/SEO.tsx:22 | an image starting with `http` is kept, otherwise the site URL is prefixed; the result always starts with `http` |
| Seo.IsProduction | src/components/SEO.tsx:25 | false for `localhost` and for any host containing `127.0.0.1`, true otherwise |
| Seo.FinalImage | src/components/SEO.tsx:26 | the image URL gets a suffix exactly in production |
| Seo.SelectorAttribute | src/components/SEO.tsx:37-41 | the new element's key is `property` exactly when the selector contains `property`, else `name` |
| Seo.SelectorKey | src/components/SEO.tsx:32 | the attribute an attribute selector tests, the text between `[` and `=`, holds no `=` |
| Seo.MetaSelectorParts | src/components/SEO.tsx:32 | of `meta[key="value"]` the tested attribute is `key` and the quoted value is `value` |
| Seo.MatchesSelector | src/components/SEO.tsx:32 | an element matches when it carries the attribute named between `[` and `=` with the value between the first two double quotes; a matching element always carries the tested attribute, and the match is exact for the meta form by `Seo.MatchesMetaSelector` |
| Seo.MatchesMetaSelector | src/components/SEO.tsx:32 | an element matches `meta[key="value"]` exactly when its attribute `key` is `value` |
| Seo.MetaSelectorAttribute | src/components/SEO.tsx:32-41 | the attribute a created element is named after agrees with the one the search tests, for `meta[property="…"]` and for `meta[name="…"]` whose value has no `y` |
| Seo.FirstMatch | src/components/SEO.tsx:32 | the first matching element's index, or -1 exactly when none matches |
| Seo.NewMeta | src/components/SEO.tsx:36-42 | a created element has exactly the key chosen from `property`/`name` and `attr`, with `attr` set to the value; it matches the selector when that key is the one the selector tests and `attr` is another, and does not when the tested attribute is neither |
| Seo.Upsert | src/components/SEO.tsx:31-45 | a found element gets exactly the attribute `attr` set to the value, its other attributes and every other element unchanged; otherwise exactly one element is appended, holding only the key chosen from `property`/`name` with the quoted value and `attr` with the value; when that key is the attribute the selector tests and `attr` is another, the selector afterwards finds an element carrying the value |
| Seo.UpsertAtValue | src/components/SEO.tsx:31-35 | an update whose found element already has `attr` set to the value leaves the head unchanged |
| Seo.UpsertIdempotent | src/components/SEO.tsx:31-45 | repeating an update with the same arguments changes nothing, when the selector finds the element created for it and `attr` is not its key; `Seo.MetaTagsSelfMatching` shows this holds for every call of the effect |
| Seo.MetaTags | src/components/SEO.tsx:47-62 | the effect writes eleven tags |
| Seo.SelfMatchingTag | src/components/SEO.tsx:36-44 | `updateMeta(sel, 'content', v)` with `sel` a `meta[property="…"]` selector, or a `meta[name="…"]` selector without `y`, creates an element the selector then finds |
| Seo.MetaTagsSelfMatching | src/components/SEO.tsx:47-62 | each of the eleven selectors finds the element `updateMeta` creates for it, and `content` is never its key |
| Seo.Document.QuerySelector | src/components/SEO.tsx:32 | the element search returns the first match, or -1 |
| Seo.Document.UpdateMeta | src/components/SEO.tsx:31-45 | the head becomes the upsert of the old head; the title is kept |
| Seo.Document.UpdateAll | src/components/SEO.tsx:47-62 | the tag updates applied in order |
| Seo.Document.ApplySeo | src/components/SEO.tsx:28-64 | the effect sets the title and upserts every tag with the resolved values |
| Hearts.Present | functions/api/hearts.js:6 | `!gameId` is false exactly for a present, non-empty id |
| Hearts.HeartsOf | functions/api/hearts.js:11-15 | the stored count of a game, or 0 when it has no row |
| Hearts.Increment | functions/api/hearts.js:29-31 | an absent game gets count 1, a present one gains exactly 1; every other game is unchanged |
| Hearts.IncrementTimesCount | functions/api/hearts.js:29-31 | `n` POSTs add exactly `n` hearts |
| Hearts.FreshTableCount | functions/api/hearts.js:11-31 | on a fresh table, `n` POSTs and then a GET report `n` |
| Hearts.HeartsDb.constructor | functions/api/hearts.js:11-13 | the table starts with no rows |
| Hearts.HeartsDb.OnRequestGet | functions/api/hearts.js:1-18 | a missing or empty id gives 400 `Missing gameId`; otherwise the count, 0 for a game without a row |
| Hearts.HeartsDb.OnRequestPost | functions/api/hearts.js:20-36 | a missing or empty id gives 400 and leaves the table unchanged; otherwise the count is incremented |
| Hearts.TwoHeartsScenario | functions/api/hearts.js:1-36 | two POSTs and a GET on a fresh table report two hearts |
| Newsletter.ValidEmail | functions/api/newsletter.js:5 | an address is accepted exactly when it is present and contains `@` |
| Newsletter.Subscribe | functions/api/newsletter.js:1-21 | 400 `Invalid email` for a missing address or one without `@`; 500 with the driver's message on failure; otherwise success with the address in the set; the set only grows, and changes only on success |
| Newsletter.SubscribeIdempotent | functions/api/newsletter.js:11-17 | subscribing the same address again answers the same and leaves the set as it was |
| Newsletter.MailingList.constructor | functions/api/newsletter.js:11-13 | the list starts with no addresses |
| Newsletter.MailingList.OnRequestPost | functions/api/newsletter.js:1-21 | the response and the new set are those of `Subscribe` |
| PngFormat.BE32 | gen_images.py:36 | four bytes whose big-endian value is the number |
| PngFormat.BE32OfFromBE32 | gen_images.py:36 | encoding the big-endian value of four bytes gives them back |
| PngFormat.ChunkBytes | gen-real-images.cjs:38-45 | a chunk takes 12 bytes more than its data |
| PngFormat.ParseChunk | gen-real-images.cjs:38-45 | a parsed chunk is well formed and consumes input |
| PngFormat.ParseChunkBytes | gen-real-images.cjs:38-45 | parsing a framed chunk gives back its type, data and CRC and the rest of the input |
| PngFormat.ParseSerialize | gen-real-images.cjs:35 | parsing concatenated chunks gives the chunk list back |
| PngFormat.IhdrData | gen-real-images.cjs:7-14 | 13 bytes: width and height big-endian, then 8, 2, 0, 0, 0 |
| PngFormat.PngChunks | gen-real-images.cjs:31-35 | the chunks written are well formed |
| PngFormat.PngFileLayout | gen-real-images.cjs:31-35 | the file is the signature, then chunks IHDR, IDAT and IEND in that order, with IEND empty |
| PngFormat.PngFileBytes | gen-real-images.cjs:35 | the file is the signature and the three framed chunks concatenated |
| PngJs.WriteInt32BE | gen-real-images.cjs:8-9 | `writeInt32BE` succeeds only in the signed 32-bit range, writing big-endian bytes |
| PngJs.CreateChunkAsWritten | gen-real-images.cjs:38-45 | as written, a chunk is produced only when both the length and the CRC are below 2^31, and it is then the standard framing |
| PngJs.IendChunkAsWrittenFails | gen-real-images.cjs:33 | as written, the IEND chunk always fails, because its CRC 0xAE426082 is above 2^31 |
| PngJs.CreateChunk | gen-real-images.cjs:38-45 | corrected: length, type, data and the unsigned CRC, for any data shorter than 2^31 |
| PngJs.CreateChunkRoundTrip | gen-real-images.cjs:38-45 | a corrected chunk parses back to its type, data and CRC |
| PngJs.RawImage | gen-real-images.cjs:19-29 | the raw buffer has length `(3 * width + 1) * height` and each byte follows the row layout |
| PngJs.RawByteAt | gen-real-images.cjs:22-27 | each row starts with 0, and channel `c` of pixel `x` is colour channel `c` |
| PngJs.RawImageLayout | gen-real-images.cjs:19-29 | length; each row's first byte 0; byte `y * rowSize + 1 + 3x + c` is channel `c` |
| PngJs.ToUint8 | gen-real-images.cjs:25-27 | a channel stored by Buffer index assignment is the value itself for 0..255 and otherwise agrees with it modulo 256 |
| PngJs.FillRow | gen-real-images.cjs:22-28 | the inner loop writes one row's bytes and leaves the bytes before and after the row alone |
| PngJs.FillImageData | gen-real-images.cjs:19-29 | the nested loops fill the buffer with exactly the raw image |
| PngJs.WriteIhdr | gen-real-images.cjs:7-14 | the IHDR buffer holds exactly the 13 IHDR bytes |
| PngJs.CreatePng | gen-real-images.cjs:4-36 | corrected: a file exactly when the sizes and the deflated data fit the signed 32-bit range; it is the signature and the IHDR, IDAT and IEND chunks over the deflated raw image |
| PngJs.CreatePngAsWrittenNeverSucceeds | gen-real-images.cjs:33-35 | as written, no call produces a file |
| PngJs.CreatePngAsWritten | gen-real-images.cjs:4-36 | as written, a file exactly when both sizes, the deflated data and all three CRCs are below 2^31, and it is then the standard file |
| PngPy.PackU32 | gen_images.py:36 | `struct.pack('>I')` succeeds exactly in 0 .. 2^32 - 1, writing big-endian bytes |
| PngPy.PackIhdr | gen_images.py:7 | `'>IIBBBBB'` packs the 13 IHDR bytes when both sizes fit |
| PngPy.Mask32 | gen_images.py:36 | `& 0xffffffff` keeps a value already in range |
| PngPy.PackChunk | gen_images.py:35-36 | length, tag, data and the masked CRC, unsigned, whenever the data is shorter than 2^32 |
| PngPy.PackIendChunk | gen_images.py:32 | the IEND chunk packs fine with CRC 0xAE426082 |
| PngPy.PackChunkRoundTrip | gen_images.py:35-36 | a packed chunk parses back to its tag, data and masked CRC |
| PngPy.Darken | gen_images.py:24 | `max(0, v - 10)` |
| PngPy.ScanlineColor | gen_images.py:23-24 | rows with `y % 4 == 0` lose 10 per channel, clamped at 0; other rows are unchanged |
| PngPy.PixelBytes | gen_images.py:29 | each pixel adds three bytes, the shaded r, g, b |
| PngPy.RowPixelsLength | gen_images.py:26-29 | a row of `n` pixels has `3n` bytes |
| PngPy.RowPixelsLayout | gen_images.py:26-29 | channel `c` of pixel `x` is at offset `3x + c` of the row's pixels |
| PngPy.RowLayout | gen_images.py:15-29 | a row is `1 + 3 * width` bytes: filter byte 0, then the pixel channels |
| PngPy.ImageDataLength | gen_images.py:14-29 | the raw data of `k` rows has length `k * (1 + 3 * width)` |
| PngPy.ImageDataRow | gen_images.py:14-29 | each row sits right after the rows before it |
| PngPy.ImageDataLayout | gen_images.py:14-29 | length `height * (1 + 3 * width)`; row starts hold 0; each channel byte is in its place |
| PngPy.AppendRow | gen_images.py:15-29 | one pass of the outer loop appends exactly one row |
| PngPy.BuildImageData | gen_images.py:14-29 | the loops build exactly the image data |
| PngPy.CreateHqPng | gen_images.py:5-33 | a file exactly when the sizes fit, equal to the signature and the three chunks over the compressed image data with masked CRCs |

## Left out

- `src/components/WasmPlayer.tsx` has no iframe or `postMessage` handling and no error state; the model covers its timer-driven boot sequence.
- Real timers and `requestAnimationFrame`: timers are an ordered list of pending callbacks, and the animation loop is a flag plus one `Render` step per frame.
- WasmPlayer.Player.Tick: the boot callback always starts the loop. The early returns of `startGameLoop` when the canvas or its 2D context is missing are not modelled, because the canvas is outside the model.
- The canvas drawing, the floating-point `hue` and the text and gradient overlays of `render`: none of them affect the modelled state.
- Text.ToLower: only ASCII letters are lower-cased. `toLowerCase` covers all of Unicode, which would need Unicode case tables.
- `localStorage`, `document` and `window` are maps and parameters. `JSON.parse` and `JSON.stringify` are parameters, so malformed stored JSON, which would throw, is not modelled. Because `parse` returns a well-formed record, stored JSON of the wrong shape (`null`, `{}`, `{"recentlyPlayed":"x"}`) is not modelled either: `JSON.parse` accepts it, and `recordPlay` would then throw on `prev.recentlyPlayed.filter`.
- Theme.ThemeClasses: a stored theme that is not a valid class token, such as one containing a space, makes `classList.add` throw. This is not modelled.
- Seo.Document.QuerySelector: only the `<meta>` elements of the head are searched. A selector is read as one attribute test, its key between `[` and `=` and its value between the first two double quotes; this is exact for the `meta[attr="value"]` form used at lines 47-61, and is not a CSS selector engine.
- Seo.Document.ApplySeo: the eleven consecutive `updateMeta` calls are written as one loop over the list `MetaTags`, in the same order.
- The `Date.now()` cache-buster value is the parameter `stamp`.
- HTTP request parsing, response headers and the D1 driver. Ids and addresses are `Option<string>`: a JSON value that is present but not a string is not modelled. A database failure in `hearts.js` has no handler in the source and is not modelled.
- `zlib.crc32`, `zlib.deflateSync` and `zlib.compress` are uninterpreted function parameters.
- PngPy.Shading: the gradient `fade` and the vignette `edge_fade` are floating point, so they are parameters. They are typed to return bytes, which the source's own formulas do for byte inputs.
- PngJs.CreatePng: `Buffer.alloc` limits on very large images are not modelled. Channel values are converted with `% 256`, as Buffer index assignment does for integers. Non-integer channel values are not modelled.
- File writes, directory creation and console output of both scripts, and `gen-images.cjs`, which writes a fixed base64 blob.
- The service worker, routing, bootstrap code and all JSX and styling.

## Findings

| source | as written | input that shows it | evidently intended | confidence | as-written member | corrected member |
|---|---|---|---|---|---|---|
| gen-real-images.cjs:43 | the chunk CRC is written with the signed `writeInt32BE` | any chunk whose CRC is at least 2^31. Every IEND chunk is one: its CRC is 0xAE426082, so `createChunk('IEND', ...)` throws a RangeError and `createPng` never returns a file | write the CRC as an unsigned 32-bit value (`writeUInt32BE`), as the PNG chunk layout requires and as `gen_images.py:36` does | high; not executed | PngJs.CreateChunkAsWritten | PngJs.CreateChunk |
