# YouTube media provider, modelled in Dafny

This project models the YouTube provider of SonataMediaBundle (`YouTubeProvider`). The provider
does four things:

- **Normalisation.** It turns what a user pasted as a video into a stored reference: a watch page
  URL, a short link or an embed URL is reduced to the video id it names (`fixBinaryContent`).
- **Transform and metadata.** It moves a media entity through its provider status while it asks the
  oEmbed endpoint for the title, the author and the size (`doTransform`, `updateMetadata`).
- **URLs.** It builds the public watch URL of a reference, and the redirect answered for a download
  (`getReferenceUrl`, `getDownloadResponse`).
- **Player configuration.** It builds the configuration of the embeddable player from layered
  defaults, caller options and the display box (`getHelperProperties`).

Layout:

| file | module | what |
|---|---|---|
| `wrappers.dfy` | `Wrappers` | `Option`, `Result` |
| `php_array.dfy` | `PhpArray` | PHP arrays with string keys, `array_merge`, lookups |
| `http_query.dfy` | `HttpQuery` | `http_build_query` on scalar values, and reading a query back at `&` |
| `reference_pattern.dfy` | `ReferencePattern` | the id-extraction pattern, described two ways: a grammar and a deterministic matcher, proved to agree |
| `reference_url.dfy` | `ReferenceUrl` | watch URL, oEmbed URL, download redirect |
| `player_config.dfy` | `PlayerDefaults`, `PlayerConfig` | `getHelperProperties` |
| `media.dfy` | `MediaEntity` | the media entity, a class whose setters update it in place |
| `provider.dfy` | `Provider` | the provider class: `GetHelperProperties`, `FixBinaryContent`, `UpdateMetadata`, `DoTransform` |

The entity operations are methods on the `Media` class. Each method's postcondition ties the new
state (`Media.State()`) to a function of the old one (`FixedContent`, `Synced`, `Transformed`). The
lemmas about those functions state what the provider promises.

The pattern is modelled twice:

- a nondeterministic grammar (`IsLeadIn` and friends), with one disjunct per optional group or
  alternative;
- a matcher (`LeadEnd`, `MatchVideoId`) that makes the choices a backtracking engine makes.

`MatchVideoIdCorrect` proves two things about them. The matcher finds a capture exactly when the
grammar admits one. The capture is the maximal id run after the longest lead-in the grammar accepts.

Three points of the code shape the model:

- The oEmbed request embeds the watch URL as it is, without percent-encoding
  (`src/Provider/YouTubeProvider.php:198`). `OembedQuerySplitsAtAmpersand` shows the consequence: a
  reference holding `&` splits the `url` parameter.
- `updateMetadata` catches the runtime exception of the fetch itself (`:200-207`). A failed fetch
  disables the media and marks it in error, whether or not the update is forced, and nothing is
  raised (`FailedSyncIgnoresForce`).
- `http_build_query` encodes keys and string values with an encoder that is a parameter here
  (`encode`). The only thing assumed of it is that it never produces `&` (`EncodesSeparators`).

## Model

| member | source | states |
|---|---|---|
| `PhpArray.Find` | src/Provider/YouTubeProvider.php:169 | reading `$t[$k]`: absent exactly when the key is not in the array; otherwise the value of an entry with that key |
| `PhpArray.FindEntry` | src/Provider/YouTubeProvider.php:160 | in an array without repeated keys, looking up an entry's key gives that entry's value |
| `PhpArray.ArrayMerge` | src/Provider/YouTubeProvider.php:178 | `array_merge` keeps every left-hand key, in its place, at the front of the result |
| `PhpArray.ArrayMergeFind` | src/Provider/YouTubeProvider.php:178 | after `array_merge` every key reads as the right-hand value if the right side has the key, else as the left-hand value |
| `PhpArray.ArrayMergeAt` | src/Provider/YouTubeProvider.php:178 | entry `j` of the left side stays at position `j` with its key; its value is replaced by the right-hand one when there is one |
| `PhpArray.ArrayMergeAppends` | src/Provider/YouTubeProvider.php:178 | after the left-hand entries come exactly the right-hand entries whose key the left side lacks, each as it is, in right-hand order |
| `PhpArray.ArrayMergeKeys` | src/Provider/YouTubeProvider.php:178 | a key is in the merge exactly when it is a key of either side |
| `PhpArray.ArrayMergeEmpty` | src/Provider/YouTubeProvider.php:178 | merging in `[]` (the `?? []` fallback) returns the left side unchanged |
| `PhpArray.ArrayMergeUnique` | src/Provider/YouTubeProvider.php:182-185 | `array_merge` of two arrays without repeated keys has no repeated key |
| `HttpQuery.IntText` | src/Provider/YouTubeProvider.php:189 | an integer is written in decimal: non-empty, no `&`, and a leading `-` exactly for a negative number |
| `HttpQuery.NatTextValue` | src/Provider/YouTubeProvider.php:189 | the digits written for a natural number denote that number, with no leading zero |
| `HttpQuery.IntTextValue` | src/Provider/YouTubeProvider.php:189 | after the optional `-` an integer's text is digits only, and they denote its absolute value |
| `HttpQuery.QueryPairsFrom` | src/Provider/YouTubeProvider.php:189 | at most one `key=value` piece per entry, and exactly one per entry when no value is null |
| `HttpQuery.SplitJoin` | src/Provider/YouTubeProvider.php:189 | joining `&`-free pieces with `&` and splitting at `&` gives the pieces back |
| `HttpQuery.QueryPairsFromSound` | src/Provider/YouTubeProvider.php:189 | every `key=value` piece comes from a later non-null entry of the array |
| `HttpQuery.QueryPairsFromComplete` | src/Provider/YouTubeProvider.php:189 | every non-null entry contributes its `key=value` piece |
| `HttpQuery.QueryPairsMembers` | src/Provider/YouTubeProvider.php:189 | a piece is in the query exactly when it is the text of an entry whose value is not null (nulls are omitted) |
| `HttpQuery.QueryPairsHaveNoSeparator` | src/Provider/YouTubeProvider.php:189 | with an encoder that escapes `&`, no piece contains `&` |
| `HttpQuery.HttpBuildQuery` | src/Provider/YouTubeProvider.php:189 | with an encoder that escapes `&`, splitting the built query at `&` gives exactly the pieces of the non-null entries, in array order; with only null values the query is empty |
| `PlayerConfig.UrlDefaultsUnique` | src/Provider/YouTubeProvider.php:63-154 | the url-parameter defaults are eighteen entries with no key twice |
| `PlayerConfig.UrlDefaultsNulls` | src/Provider/YouTubeProvider.php:63-154 | exactly `playerapiid`, `color1` and `color2` default to null |
| `PlayerConfig.DefaultPlayerParameters` | src/Provider/YouTubeProvider.php:156-176 | four player defaults; `border` and `wmode` are copied from the url-parameter defaults, `allowScriptAccess` is the option or `always` (see also `AllowScriptAccessDefault`, `PlayerBorderIgnoresUrlOverrides`, `PlayerWmodeIgnoresUrlOverrides`) |
| `PlayerConfig.PlayerUrlParameters` | src/Provider/YouTubeProvider.php:178 | the url parameters hold exactly the keys of the defaults and of the overrides (see also `UrlOverridesReplaceDefaults`, `UrlDefaultKept`, `NoUrlOverridesKeepDefaults`) |
| `PlayerConfig.PlayerParameters` | src/Provider/YouTubeProvider.php:182-185 | the player parameters hold exactly the keys of the player defaults, of the overrides, and `width` and `height` (see also `BoxDimensionsWin`, `PlayerParametersUnique`) |
| `PlayerConfig.GetHelperProperties` | src/Provider/YouTubeProvider.php:54-194 | `html5` is the option when it is set and not null, else the provider's flag; the url-parameter string reads back at `&` as the pieces of the merged url parameters; the player parameters are the merged ones (see also `DefaultInQuery`) |
| `PlayerConfig.UrlOverridesReplaceDefaults` | src/Provider/YouTubeProvider.php:178 | an url-parameter override replaces the default of its key, other keys keep their default, and the defaults keep their order at the front |
| `PlayerConfig.NoUrlOverridesKeepDefaults` | src/Provider/YouTubeProvider.php:178 | without `player_url_parameters` (absent or empty) the url parameters are exactly the eighteen defaults |
| `PlayerConfig.UrlDefaultKept` | src/Provider/YouTubeProvider.php:63-154 | a default that is not overridden keeps its key, value and position |
| `PlayerConfig.DefaultInQuery` | src/Provider/YouTubeProvider.php:187-191 | a non-null default that is not overridden is one of the `key=value` pieces read back from `player_url_parameters` |
| `PlayerConfig.BoxDimensionsWin` | src/Provider/YouTubeProvider.php:182-185 | the final `width` and `height` are the box's, whatever `player_parameters` says |
| `PlayerConfig.AllowScriptAccessDefault` | src/Provider/YouTubeProvider.php:169 | without a `player_parameters` override, `allowScriptAccess` is the option's value, or `always` when that is absent or null |
| `PlayerConfig.PlayerBorderIgnoresUrlOverrides` | src/Provider/YouTubeProvider.php:160 | without a `player_parameters` override, the player's `border` is the fixed default 0, whatever the url-parameter overrides say |
| `PlayerConfig.PlayerWmodeIgnoresUrlOverrides` | src/Provider/YouTubeProvider.php:175 | without a `player_parameters` override, the player's `wmode` is `window`, whatever the url-parameter overrides say |
| `PlayerConfig.PlayerParametersUnique` | src/Provider/YouTubeProvider.php:182-185 | the player parameters have no repeated key when the overrides have none |
| `ReferencePattern.LineEnd` | src/Provider/YouTubeProvider.php:263 | `.` stops at the first newline: every byte before the returned position is not a newline |
| `ReferencePattern.RunEnd` | src/Provider/YouTubeProvider.php:263 | the id group `[^#?&'>]+` is greedy: all bytes up to the end are id bytes, and the next one is not |
| `ReferencePattern.MatchVideoId` | src/Provider/YouTubeProvider.php:262-268 | a capture is a non-empty run of bytes outside `#?&'>` that occurs in the input |
| `ReferencePattern.Normalize` | src/Provider/YouTubeProvider.php:254-268 | content of exactly 11 bytes is kept; otherwise the result is the content itself or a non-empty id run, and always a substring of the content |
| `ReferencePattern.LeadEndSound` | src/Provider/YouTubeProvider.php:263 | where the matcher places the id, the pattern does match, as the grammar says |
| `ReferencePattern.LeadEndLongest` | src/Provider/YouTubeProvider.php:263 | whenever the grammar admits a match, the matcher finds one, and no admissible lead-in is longer than its own (the greedy `(?:.*&)?`) |
| `ReferencePattern.MatchVideoIdCorrect` | src/Provider/YouTubeProvider.php:262-268 | no capture exactly when the pattern cannot match; otherwise the capture is the maximal id run after the longest lead-in |
| `ReferencePattern.LongerLeadInHasAmp` | src/Provider/YouTubeProvider.php:263 | two lead-ins of one input differ only through `(?:.*&)?`: the longer one passes an `&` after the shorter one ends |
| `ReferencePattern.ExtractsIdAfterLeadIn` | src/Provider/YouTubeProvider.php:262-268 | after a lead-in with no `&` later in the input, the capture is the maximal id run there |
| `ReferencePattern.NormalizeKeepsSlashless` | src/Provider/YouTubeProvider.php:262-268 | content without `/` never matches, so it is kept |
| `ReferencePattern.NormalizeIdempotent` | src/Provider/YouTubeProvider.php:252-269 | normalising again changes nothing when the first result has no `/` |
| `ReferencePattern.NormalizeNotIdempotent` | src/Provider/YouTubeProvider.php:263 | in general normalising is not idempotent: an id may itself look like a short link |
| `ReferencePattern.NormalizeWatchUrl` | src/Provider/YouTubeProvider.php:263 | `https://www.youtube.com/watch?v=` followed by an id normalises to the id |
| `ReferencePattern.NormalizeWatchUrlWithParameters` | src/Provider/YouTubeProvider.php:263 | `youtube.com/watch?` with other parameters before `&v=` and an id normalises to the id |
| `ReferencePattern.NormalizeShortLink` | src/Provider/YouTubeProvider.php:263 | `youtu.be/` followed by an id normalises to the id |
| `ReferencePattern.NormalizeEmbedUrl` | src/Provider/YouTubeProvider.php:263 | `www.youtube.com/embed/` followed by an id normalises to the id |
| `ReferenceUrl.GetReferenceUrl` | src/Provider/YouTubeProvider.php:226-235 | fails with the invalid-argument message exactly when there is no reference; otherwise the watch prefix followed by the reference |
| `ReferenceUrl.GetDownloadResponse` | src/Provider/YouTubeProvider.php:221-224 | fails exactly as `getReferenceUrl` does; otherwise a 302 redirect to the reference URL carrying the caller's headers |
| `ReferenceUrl.ReferenceUrlRoundTrip` | src/Provider/YouTubeProvider.php:234 | normalising the watch URL of an id gives the id back |
| `ReferenceUrl.DownloadTargetsReference` | src/Provider/YouTubeProvider.php:223 | the download redirect points at a URL that normalises to the media's reference |
| `ReferenceUrl.OembedUrl` | src/Provider/YouTubeProvider.php:198 | the request starts with the oEmbed endpoint, and for a reference URL without `&` its query reads back as `url=` with the whole URL, then `format=json` |
| `ReferenceUrl.OembedQueryReadsBack` | src/Provider/YouTubeProvider.php:198 | for a reference URL without `&`, the oEmbed query reads back as `url=` with the whole URL, then `format=json` |
| `ReferenceUrl.OembedQueryOfVideoId` | src/Provider/YouTubeProvider.php:198 | for an id reference the oEmbed query carries the id's whole watch URL |
| `ReferenceUrl.OembedQuerySplitsAtAmpersand` | src/Provider/YouTubeProvider.php:198 | a reference URL holding `&` is not escaped: the `url` parameter is cut short there |
| `Provider.Field` | src/Provider/YouTubeProvider.php:212-217 | a metadata key that is missing reads as null |
| `Provider.FixedContent` | src/Provider/YouTubeProvider.php:252-269 | absent content stays absent; present content becomes its normalisation |
| `Provider.Refreshed` | src/Provider/YouTubeProvider.php:200-218 | a failed fetch only disables the media and sets the error status; a successful one stores metadata, size and `video/x-flv`, and title and author only when forced; content, provider name and reference never change |
| `Provider.Synced` | src/Provider/YouTubeProvider.php:196-219 | fails with the missing-reference error exactly when there is no reference; otherwise applies the oEmbed answer for the reference's watch URL |
| `Provider.Transformed` | src/Provider/YouTubeProvider.php:237-250 | absent content changes nothing; otherwise content and reference become the normalised content and the provider is named; the media ends up OK and unchanged in enabled, or in error and disabled |
| `Provider.YouTubeProvider.constructor` | src/Provider/YouTubeProvider.php:29-41 | records the provider's name and html5 flag |
| `Provider.YouTubeProvider.GetHelperProperties` | src/Provider/YouTubeProvider.php:54-59 | the player configuration falls back on the provider's own html5 flag when the option is unset or null |
| `Provider.YouTubeProvider.FixBinaryContent` | src/Provider/YouTubeProvider.php:252-269 | the entity's content becomes `FixedContent` of the old content; nothing else changes |
| `Provider.YouTubeProvider.UpdateMetadata` | src/Provider/YouTubeProvider.php:196-219 | without a reference the error is raised and the entity is unchanged; otherwise nothing is raised and the entity is the `Synced` state |
| `Provider.YouTubeProvider.DoTransform` | src/Provider/YouTubeProvider.php:237-250 | never raises; the entity ends in the `Transformed` state |
| `Provider.TransformFetchSucceeds` | src/Provider/YouTubeProvider.php:245-249 | after a transform whose fetch succeeds, the reference is the normalised content, the status OK, and title, author, size, content type and metadata come from the answer |
| `Provider.TransformFetchFails` | src/Provider/YouTubeProvider.php:200-207 | after a transform whose fetch fails, the media is disabled and in error, the reference is kept, and title, author, size, content type and metadata are untouched |
| `Provider.FailedSyncIgnoresForce` | src/Provider/YouTubeProvider.php:200-207 | a failed fetch has the same effect forced or not: disabled and in error, nothing else changed |
| `Provider.UnforcedSyncKeepsNames` | src/Provider/YouTubeProvider.php:211-214 | an unforced update equals the forced one except that name and author keep their old values |
| `Provider.TransformIdempotent` | src/Provider/YouTubeProvider.php:237-250 | when the normalised content has no `/`, transforming again keeps the content, reference and provider name, whatever the second fetch answers; with the same answer the whole state is unchanged |
| `Provider.TransformWatchUrl` | src/Provider/YouTubeProvider.php:247 | a watch URL submitted as content yields the video id as the provider reference |

## Left out

- The oEmbed fetch (`getMetadata` of the base class, an HTTP request and JSON decoding) is not
  modelled. It is a parameter `remote` that maps the request URL to the decoded object or a failure.
  Base-class behaviour, such as how a response becomes a runtime exception, is not part of this
  model.
- The box resolver (`getBoxHelperProperties`, in the base class) is a `Box` value given to the
  configuration.
- `http_build_query`'s byte encoding is the parameter `encode`. This covers `urlencode`, RFC 1738
  spaces and the like. Floats and nested arrays (bracket expansion) are left out: values are null,
  integers, booleans or strings.
- `array_merge` renumbers integer keys. The model has string keys only, which are the only keys the
  provider's tables use.
- A missing metadata key reads as null, as PHP does. The warning PHP emits is not modelled.
- The setters' PHP type declarations are not modelled. A setter that would raise a `TypeError` on
  a metadata value of the wrong type stores the value here, whatever its type.
- PCRE limits are not modelled: backtracking and recursion limits, and `preg_match` returning
  `false`. Content is a byte string; the pattern is not compiled with `/u`.
- Content that is not a string (`binaryContent` may hold a file in other providers) is not modelled.
- `getProviderMetadata` (`:43-52`) is not modelled; it builds a constant record of a class that is
  not part of this model.
- The constructor's wiring is not modelled: filesystem, CDN, path generator, thumbnail, HTTP client
  and request factory. Only the name and the html5 flag are kept.
- The `RedirectResponse` internals are a plain record `(targetUrl, status, headers)`.
- The media statuses are limited to those the provider sets or starts from (`Pending`, `Ok`,
  `Error`). The other entity fields and their defaults are not part of this model.
- `tests/App/Provider/TestProvider.php` and `src/Provider/MetadataInterface.php` hold no provider
  logic and are not modelled.
- `PlayerConfig.UrlDefaultKept`: the eighteen url-parameter defaults are stated entry by entry
  (key, value, position) rather than as one literal equality of the whole merged table.
- `PlayerConfig.DefaultInQuery`: the query string of the defaults is stated piece by piece
  (each non-null default reads back from it) rather than as one literal string.
