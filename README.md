# nuxt-dsi card generator, modelled in Dafny

nuxt-dsi serves a social-preview card for a site path: a 1200 x 628 JPEG. The
event handler turns the path into a cache file name. When that file is
absent, or the server runs in development mode, the handler fetches the
page. It then extracts the page's metadata (`DSIGenerator.getMetaData`) and
lets the default renderer lay out a background photo, two tint boxes and a
stack of text boxes. Otherwise it returns the stored bytes.

The model has five modules:

- `Js` (js.dfy) covers the JavaScript notions the code relies on.
  - Values may be a string, `undefined` or `false`.
  - Only a non-empty string is truthy.
  - `||` returns its left operand when that is truthy, otherwise the right one.
  - A template literal renders `undefined` and `false` as those words.
- `Metadata` (metadata.dfy) models `getMetaData` over the regex matches, which are its inputs.
  - The inputs are the `(name|property, content)` pairs of the `<meta>` matches, the capture of the first `<title>` match (None when there is none), and the `<img src>` captures.
  - The regex engine itself is not modelled.
  - The meta dictionary is filled by a loop; `CollectMeta` is that loop.
  - The pure record is `Extract`. `GetMetaData` is the method that runs the steps in the source's order.
- `CardCache` (cache.dfy) holds the file name derived from the path (`CacheKey`) and the hit/miss decision (`Serve`).
  - The class `Cache` holds the cache directory as a map from file name to bytes, plus the development-mode flag.
  - The compute step (fetch, extract, render, encode) is a parameter of the cache that returns the bytes, or None when it throws.
- `Layout` (layout.dfy) models the geometry of `defaultImageRenderer`.
  - The canvas is the sequence of objects added to it, each with its role, text, left, top, width and height.
  - `DefaultImageRenderer` is imperative, moving the `textTop` cursor step by step. It is proved equal to the closed-form `Plan`, and the layout properties are proved about `Plan`.
- `Pipeline` (pipeline.dfy) composes extraction with layout, as on the miss branch.
  - `Compute` is the cache's compute step, built from extraction and layout. Fetching, text measurement and JPEG encoding are its parameters.
  - It works through the scenario of a page with a title, an `og:description` and one photo.

Three points where the code differs from, or is sharper than, the documented behaviour:

- **A missing `<title>` is an error, not `false`.** The code follows the description only when the title capture is empty: then the title is `false`. With no `<title>` at all, line 62 indexes `undefined`, and `getMetaData` throws. The `.catch` at line 105 turns that into an undefined response, and the destructuring at line 113 makes the handler fail. The model follows the code: `Extract` returns `Err(TitleMissing)`, `CardLayout` returns None, and `Compute` yields None. With that compute step the cache stores nothing for such a page (`FailedPageStoresNothing`, `HandleFailedPage`).
- **Cache keys are not injective on paths without `__`.** `/a_/b` and `/a/_b` both become `__a___b.jpg` (`CacheKeyCollision`). Injectivity holds for paths without `_` (`CacheKeyInjective`).
- **The caption is not part of the measured stack.** The cursor moves from 30 to 120 by a fixed 90, whatever the caption's measured height. The stacked boxes (section, title, subtitle, description) never overlap one another (`StackedTextNoOverlap`). The caption clears them exactly when it is at most 90 high. A taller caption runs into a present section (`CaptionAgainstStack`). The model follows the code, so the no-overlap invariant covers the caption only under that height bound.

## Model

| member | source | states |
|---|---|---|
| Js.Truthy | src/runtime/handler.get.ts:222 | the falsy values are exactly `undefined`, `false` and the empty string |
| Js.ToJsString | src/runtime/handler.get.ts:238 | `${v}` renders a string as itself, `undefined` as "undefined" and `false` as "false", so it is empty only for the empty string |
| Js.Or | src/runtime/handler.get.ts:75-81 | `a \|\| b` is the left operand when that is truthy and the right one otherwise; it is truthy iff either operand is |
| Metadata.Assign | src/runtime/handler.get.ts:65-68 | assigning matches to a dictionary keeps its keys and adds the key of every match |
| Metadata.MetaMap | src/runtime/handler.get.ts:64-68 | a key is in the meta dictionary iff some meta match carries that key; absent keys stay absent |
| Metadata.Lookup | src/runtime/handler.get.ts:75-81 | `values[k]` is the stored string for a stored key and `undefined` for any other key; it is never `false` |
| Metadata.MetaMapLastWins | src/runtime/handler.get.ts:64-68 | for a repeated key the dictionary holds the content of the last match with that key |
| Metadata.CollectMeta | src/runtime/handler.get.ts:64-68 | the `for` loop builds exactly the last-wins dictionary, whose keys are exactly the match keys |
| Metadata.HasImageExtension | src/runtime/handler.get.ts:70 | the regex accepts exactly a source of at least four characters whose fourth-last is not a line terminator and whose last three, lower-cased, are `jpg`, `png` or `gif` |
| Metadata.ImageExtensionIgnoresCase | src/runtime/handler.get.ts:70 | a source is accepted iff its lower-cased form is |
| Metadata.ImageSuffixAccepted | src/runtime/handler.get.ts:70 | any stem, then any non-line-terminator character, then `jpg`, `png` or `gif` in any ASCII case, is accepted |
| Metadata.ImageSuffixKept | src/runtime/handler.get.ts:69-70 | such a source is kept in its place among the page's other sources |
| Metadata.KeepImages | src/runtime/handler.get.ts:69-70 | the image filter keeps only sources from the page whose lower-cased form ends in a non-line-terminator character followed by `jpg`, `png` or `gif` |
| Metadata.KeepImagesMember | src/runtime/handler.get.ts:69-70 | a source is kept iff it is on the page and has an image extension |
| Metadata.KeepImagesConcat | src/runtime/handler.get.ts:70 | filtering distributes over concatenation, so the page order of the kept sources is preserved |
| Metadata.KeepImagesCount | src/runtime/handler.get.ts:70 | an accepted source is kept as many times as it occurs, and a rejected one is kept zero times |
| Metadata.KeepImagesExample | src/runtime/handler.get.ts:70 | `A.PNG, b.txt, C.jpg` gives `A.PNG, C.jpg`; because the `.` is unescaped, `xjpg` passes and `a.jpeg` fails |
| Metadata.PageTitle | src/runtime/handler.get.ts:61-62 | the title is the first `<title>` capture when that is non-empty and `false` when it is empty, so it is truthy iff the capture is non-empty |
| Metadata.Extract | src/runtime/handler.get.ts:58-83 | extraction fails iff the page has no `<title>` match |
| Metadata.GetMetaData | src/runtime/handler.get.ts:58-83 | the step-by-step extraction equals the record `Extract` describes |
| Metadata.FieldChains | src/runtime/handler.get.ts:71-82 | each field is resolved by its own key pair: the first key with a non-empty value wins, and an empty string falls through to the next source, down to the `<title>` for `cleanTitle` |
| Metadata.CleanTitleOverride | src/runtime/handler.get.ts:75 | the last `clean:title` meta value, when non-empty, is the clean title whatever the other sources hold |
| Metadata.CleanTitleFromPageTitle | src/runtime/handler.get.ts:75 | with no `clean:title` or `title` meta tags, the clean title is the page title |
| Metadata.CleanTitleDefined | src/runtime/handler.get.ts:75 | the clean title is never `undefined`; it is truthy iff a `clean:title` value, a `title` value or the `<title>` capture is non-empty |
| CardCache.Escape | src/runtime/handler.get.ts:95 | `replaceAll('/', '__')` leaves no slash and never shortens the path |
| CardCache.CacheKey | src/runtime/handler.get.ts:95-96 | the file name has no slash and ends in `.jpg` |
| CardCache.UnescapeEscape | src/runtime/handler.get.ts:95 | for a path without `_`, reading every `__` back as `/` recovers the path |
| CardCache.CacheKeyInjective | src/runtime/handler.get.ts:95-96 | two paths without `_` that share a file name are equal |
| CardCache.EscapeConcat | src/runtime/handler.get.ts:95 | escaping a concatenation is the concatenation of the escapes |
| CardCache.EscapeSegment | src/runtime/handler.get.ts:95 | a segment without a slash is left unchanged |
| CardCache.CacheKeyOfSegments | src/runtime/handler.get.ts:95-96 | `/a/b` with slash-free segments is stored as `__a__b.jpg`, e.g. `/blog/hello-world` as `__blog__hello-world.jpg` |
| CardCache.CacheKeyCollision | src/runtime/handler.get.ts:95-96 | `/a_/b` and `/a/_b` are distinct, neither holds `__`, and they share a file name |
| CardCache.Serve | src/runtime/handler.get.ts:97-136 | the handler renders iff the file is absent or in dev mode; a hit returns the stored bytes and changes nothing; a render returns what the compute step yields; on success it stores the result under the key, and on failure it leaves the directory as it was; every other file is untouched |
| CardCache.SecondCallHits | src/runtime/handler.get.ts:97-136 | outside dev mode a second request for a path is a hit returning the first response, whatever the compute step would yield now |
| CardCache.DevAlwaysRenders | src/runtime/handler.get.ts:98 | in dev mode a present file is still regenerated, and the new result is returned |
| CardCache.Cache.constructor | src/runtime/handler.get.ts:19-29 | at startup the cache directory is empty and nothing has been rendered |
| CardCache.Cache.GetOrCreate | src/runtime/handler.get.ts:95-136 | the new directory and the response are those of `Serve`; the compute step runs exactly when `Serve` renders |
| CardCache.Cache.Handle | src/runtime/handler.get.ts:86-139 | a missing or empty `path` query yields no body and changes nothing; otherwise it behaves as `GetOrCreate` on that path |
| CardCache.TwoRequests | src/runtime/handler.get.ts:97-136 | outside dev mode two requests for one path on a fresh server return the same bytes and compute only once |
| Layout.SlashIndex | src/runtime/handler.get.ts:173 | the index of the first `/`, or the length when there is none |
| Layout.Split | src/runtime/handler.get.ts:173 | `split('/')` gives at least one part and no part holds a slash |
| Layout.JoinSeparators | src/runtime/handler.get.ts:173 | joining n >= 1 slash-free parts gives exactly n - 1 slashes |
| Layout.JoinAt | src/runtime/handler.get.ts:173 | at every gap between parts, `join('/')` is the join of the parts before it, one slash, and the join of the parts after it |
| Layout.SplitJoin | src/runtime/handler.get.ts:173 | splitting the join of one or more slash-free parts gives the parts back |
| Layout.JoinSplit | src/runtime/handler.get.ts:173 | `split('/')` followed by `join('/')` gives the string back |
| Layout.SplitSegment | src/runtime/handler.get.ts:173 | splitting `a/b`, with `a` slash-free, gives `a` followed by the parts of `b` |
| Layout.AfterSlashesSuffix | src/runtime/handler.get.ts:173 | the text after the n-th slash is a suffix of the string |
| Layout.JoinDropped | src/runtime/handler.get.ts:173 | `split('/').splice(n).join('/')` is the text after the n-th slash, or empty when there are fewer slashes |
| Layout.StripIpxAfterThirdSlash | src/runtime/handler.get.ts:172-174 | an `/_ipx` path becomes the text after its third slash, a suffix of it; any other path is unchanged |
| Layout.StripIpxDropsThreeSegments | src/runtime/handler.get.ts:172-174 | `/_ipx/<modifiers>/<rest>` becomes `<rest>`, e.g. `/_ipx/w_100/img/a.jpg` becomes `img/a.jpg` |
| Layout.StripIpxTooShort | src/runtime/handler.get.ts:172-174 | an `/_ipx` path with fewer than three slashes becomes the empty path |
| Layout.AddBackground | src/runtime/handler.get.ts:169-197 | the background step draws exactly the background layer: the stripped first image, when it is non-empty and loads |
| Layout.DefaultImageRenderer | src/runtime/handler.get.ts:142-303 | the renderer that moves the cursor and adds objects produces exactly the closed-form plan |
| Layout.PlanSize | src/runtime/handler.get.ts:142-303 | the top tint, the caption and the watermark are always drawn; the image, section, title and subtitle add one object each when present, the description two; so 3 to 9 objects |
| Layout.PaintersOrder | src/runtime/handler.get.ts:169-301 | objects are added in the fixed order image, top tint, caption, section, watermark, title, subtitle, description tint, description, each at most once |
| Layout.StackedTextNoOverlap | src/runtime/handler.get.ts:199-299 | every stacked text box starts at or below 120 and at or below the bottom of every earlier stacked box |
| Layout.CaptionAgainstStack | src/runtime/handler.get.ts:199-235 | the caption sits at 30; it clears every stacked box when at most 90 high, and overlaps a present section when taller |
| Layout.PlanBoxes | src/runtime/handler.get.ts:211-290 | the only boxes drawn are the top tint and, when the description is truthy, the description tint |
| Layout.TintBoxes | src/runtime/handler.get.ts:211-290 | both tint boxes are 1200 wide from the left edge; the top one is at 0 and the caption's height plus 60 high; the description tint is present iff the description is truthy, starts 50 above the description, and always ends at the canvas height plus 70 |
| Layout.LayerPresence | src/runtime/handler.get.ts:222-302 | the watermark showing `${cleanTitle}` at (0, -30) is always present; the section, title, subtitle and description are present iff their values are truthy |
| Layout.BackgroundImage | src/runtime/handler.get.ts:169-197 | only a non-empty first image that loads is drawn, first and under its `/_ipx`-stripped path; otherwise no picture is drawn |
| Pipeline.CardLayout | src/runtime/handler.get.ts:97-129 | a card is laid out iff the page has a `<title>`; it is then the plan of the extracted record, with at least three objects |
| Pipeline.Compute | src/runtime/handler.get.ts:99-132 | the compute step fails iff the fetch fails or the page has no `<title>`; otherwise it is the encoding of the laid-out card of the extracted metadata |
| Pipeline.FailedPageStoresNothing | src/runtime/handler.get.ts:98-136 | for a page that cannot be fetched or has no `<title>`, a request leaves the directory unchanged, and a render returns no body |
| Pipeline.TitledPageStored | src/runtime/handler.get.ts:98-136 | on a miss, a titled page's encoded card is stored under the path's file name and returned |
| Pipeline.HandleFailedPage | src/runtime/handler.get.ts:86-139 | the handler leaves the directory unchanged for such a page; a hit still returns the stored card, and a render returns no body |
| Pipeline.TitleDescriptionPhotoMeta | src/runtime/handler.get.ts:58-83 | a page with a non-empty title, one `og:description` and one photo yields that title as title and clean title, that description and that photo, and no subtitle or section |
| Pipeline.TitleDescriptionPhotoLayout | src/runtime/handler.get.ts:97-129 | such a page is laid out from exactly that record |
| Pipeline.TitleDescriptionPhotoPlan | src/runtime/handler.get.ts:142-303 | for such metadata the plan is exactly: photo, top tint, caption, watermark, title, description tint, description |
| Pipeline.TitleDescriptionPhotoCard | src/runtime/handler.get.ts:97-129 | the card of such a page, with every object's role, text and position: title at 120, description at 220 plus the title's height, its tint from 170 plus the title's height down to 698 |

## Left out

- Raster work is not modelled: the fabric drawing, `renderAll`, JPEG encoding, the blur filter, scaling and `centerObject`. They belong to a foreign library and are floating-point work. The picture is an element that carries only its path.
- Text measurement is not modelled. Each text box's `height || 0` is a natural-number input (`Heights`).
- Styles are not modelled: fonts, font sizes, colours, opacities, line heights and `charSpacing`, including the style fields of the `textDefaults` record. They do not affect positions in the code. The record's `left: 50` does place the caption, whose options set no `left`; the model uses that constant 50 for the caption's x.
- The startup side effects are not modelled, beyond the empty directory of the `Cache` constructor. These are the purge-and-recreate of the cache directory (including its swallowed errors), font registration through `process.env.fontsLoaded`, and the dynamic import of a `customHandler` renderer. They are filesystem, environment and module loading. The model uses the default renderer.
- The network is not modelled: the outbound `fetch`, host defaulting, `getQuery` and `appendHeader`. The fetch is the `fetch` parameter of `Compute`, which gives the page's regex matches, or None when the request fails.
- The asynchronous write stream and the race between concurrent requests for one path are not modelled. The write is an atomic map update that happens before the response.
- `createResolver(...).resolve`, `path.resolve` and loading the image file depend on the real filesystem. The directory prefix of the cache file is dropped. Whether the picture loads is the `loads` parameter.
- Metadata.Lower: JavaScript's `toLowerCase` is modelled for ASCII letters only. Non-ASCII case mappings are left out because they would need Unicode tables.
- Metadata.MetaMap: in JavaScript, a meta key `__proto__` is never stored, because the prototype setter ignores a string value. The model stores it like any other key. None of the eight keys the record reads is affected.
- Metadata.Lookup: in JavaScript, reading an absent key that names a property of `Object.prototype` (such as `constructor`) gives an inherited value, not `undefined`. The model gives `undefined` for every absent key. This cannot arise for the record: none of the eight keys it reads names such a property.
- CardCache.Cache.Handle: a `path` query is taken as a string or absent. Array-valued queries and their `toString` are left out.
