# TikTok clipboard parser, modelled in Dafny

This project models the TikTok parser of the Obsidian "ReadItLater" plugin
(`src/parsers/TikTokParser.ts`). The plugin offers clipboard text to each parser's `test`.
This parser answers whether the text is a TikTok video link. When it is, `prepareNote`
fetches the video page and builds a note from it: a record holding the author handle, the
numeric video id, the page's `og:url` and `og:description`, an embed `<iframe>` and the
author's profile URL.

The source is pure decision logic around two regular expressions, so every operation is a
Dafny function over values, with lemmas:

- `wrappers.dfy`: `Option` (JavaScript `null`, with `GetOr` for `??`) and `Result` (a value
  or the error the source would throw).
- `patterns.dfy` (module `Patterns`): `CANONICAL_PATTERN` and `SHORT_PATTERN` without a regex
  engine.
  - `CanonicalMatches` and `ShortMatches` are ghost predicates for "some substring decomposes
    as the pattern requires". This is what `RegExp.test` answers.
  - `CanonicalExec` and `ShortExec` are computable searches giving what `RegExp.exec`
    returns. `CanonicalExec` takes the leftmost start, backtracks the greedy `\S+` and runs
    `\d+` as far as it goes.
  - The searches are proved to agree with the predicates. The leftmost-greedy reading is
    proved to determine the groups uniquely.
  - `Classify` is the tagged view `Canonical(handle, id) | ShortLink(token) | Unrecognized`.
- `tiktok_parser.dfy` (module `TikTokParser`): `test`, `resolveShortUrl`, `parseHtml` and
  `prepareNote`.
  - What the parser calls but does not define is passed in. The `Env` value holds
    `isValidUrl`, the HTTP request (a fetch oracle from URL to `Response`), the two date
    formatters and the template renderer. The plugin settings are a `Settings` value.
  - A fetched page is reduced to the three attributes the parser reads. Each is `None`
    when the element or the attribute is missing.

Character classes follow ECMAScript regular expressions without flags:
- `.` matches anything but `\n`, `\r`, U+2028 and U+2029.
- `\S` excludes the ECMAScript WhiteSpace and LineTerminator characters.
- `\d` is `[0-9]`.

## Model

| member | source | states |
|---|---|---|
| Patterns.NonSpaceRunEnd | src/parsers/TikTokParser.ts:16 | the first run a greedy `\S+` takes: every character before the result is non-whitespace, and the result is the end or a whitespace character |
| Patterns.DigitRunEnd | src/parsers/TikTokParser.ts:16 | how far greedy `\d+` runs: all digits up to the result, then the end or a non-digit |
| Patterns.LastVideoMarker | src/parsers/TikTokParser.ts:16 | backtracking of `\S+`: the last position within the run where `/video/<digit>` starts, and none after it; None only if there is none in the range |
| Patterns.ExecAt | src/parsers/TikTokParser.ts:16 | a match found at start i is a decomposition at i with the greedy handle and maximal id; None exactly when no decomposition starts at i |
| Patterns.ExecFrom | src/parsers/TikTokParser.ts:16 | the first start at or after i where the pattern matches, with no match starting in between; None when no match starts at or after i |
| Patterns.CanonicalExec | src/parsers/TikTokParser.ts:16 | `exec` is non-null exactly when the pattern matches somewhere, and then returns the greedy match at the leftmost start |
| Patterns.CanonicalTest | src/parsers/TikTokParser.ts:16 | `CANONICAL_PATTERN.test(s)` holds iff s contains `tiktok`, one non-line-terminator, `com/`, a non-empty non-whitespace run, `/video/` and one or more digits |
| Patterns.HandleWithinRun | src/parsers/TikTokParser.ts:16 | a handle followed by `/video/<digits>` ends inside the first non-whitespace run, where `/video/<digit>` starts |
| Patterns.GroupsOfGreedyMatch | src/parsers/TikTokParser.ts:16 | a greedy match's handle is non-empty and has no whitespace, its id is non-empty digits, and host + `/` + handle + `/video/` + id is the matched text |
| Patterns.CanonicalGroupsWellFormed | src/parsers/TikTokParser.ts:16 | the groups `exec` returns satisfy the decomposition: handle non-empty without whitespace, id non-empty and all digits, read off the input in place |
| Patterns.CanonicalExecUnique | src/parsers/TikTokParser.ts:16 | at most one match is leftmost and greedy, so the groups of `exec` are fixed by the pattern |
| Patterns.FirstShortCore | src/parsers/TikTokParser.ts:17 | the first position at or after p where `tiktok.com/t/<alnum>` starts, none before it; None when there is none |
| Patterns.AlnumRunEnd | src/parsers/TikTokParser.ts:17 | how far greedy `[a-zA-Z0-9]+` runs |
| Patterns.ShortPrefixIrrelevant | src/parsers/TikTokParser.ts:17 | the optional `vt`/`vm`/`.` prefix never decides a match: SHORT_PATTERN matches iff `tiktok.com/t/` followed by an ASCII letter or digit occurs |
| Patterns.ShortTest | src/parsers/TikTokParser.ts:17 | `SHORT_PATTERN.test(s)` holds iff a decomposition with an allowed prefix exists |
| Patterns.ShortExec | src/parsers/TikTokParser.ts:17 | a token exists exactly when the pattern matches. It is the longest alphanumeric run after the leftmost `tiktok.com/t/` that has one, and no match has its `tiktok.com/t/` earlier |
| Patterns.ShortExecUnique | src/parsers/TikTokParser.ts:17 | the token group is fixed by the pattern: two leftmost matches with maximal tokens are equal |
| Patterns.Classify | src/parsers/TikTokParser.ts:16-17 | canonical iff CANONICAL_PATTERN matches, with the groups of `exec`. Otherwise a short link iff SHORT_PATTERN matches, whose token is the maximal alphanumeric run after the leftmost `tiktok.com/t/` (the token of `exec`) and so non-empty and alphanumeric |
| TikTokParser.SelectCanonical | src/parsers/TikTokParser.ts:52-62 | the canonical link's `href` wins when truthy, else the `og:url` content when truthy. None exactly when neither is truthy, and a chosen URL is never empty |
| TikTokParser.ResolveShortUrl | src/parsers/TikTokParser.ts:41-64 | a failed request is an error for that URL, and a page naming no canonical URL is the "could not resolve" error. Otherwise the result is the URL the page names, never empty |
| TikTokParser.Test | src/parsers/TikTokParser.ts:19-39 | false for an invalid URL. True for a valid canonical link. False for a valid link of neither shape. For a valid short, non-canonical link, true iff resolution succeeds and its result matches CANONICAL_PATTERN |
| TikTokParser.TestFetchesOnlyShortLinks | src/parsers/TikTokParser.ts:20-28 | unless the input is valid, not canonical and short, the answer of `test` does not depend on the network |
| TikTokParser.TestDependsOnOneResponse | src/parsers/TikTokParser.ts:28-35 | `test` depends on the network only through the response for the input itself |
| TikTokParser.EmbedPlayerIdentifiesVideo | src/parsers/TikTokParser.ts:103 | the player ends with the video id followed by `"></iframe>`, and for a fixed size different ids give different players |
| TikTokParser.FetchTarget | src/parsers/TikTokParser.ts:82-84 | `parseHtml` resolves exactly the inputs SHORT_PATTERN matches and fetches any other input as it is |
| TikTokParser.ParseHtml | src/parsers/TikTokParser.ts:80-107 | errors in order: resolution, then the request, then a fetched URL CANONICAL_PATTERN does not match. On success: `videoId` and `authorName` are the `exec` groups (digits; no whitespace), `authorURL` is the profile URL, the player embeds the id at the configured size, `og:url` falls back to the fetched URL and `og:description` to `""` only when absent |
| TikTokParser.ContentFields | src/parsers/TikTokParser.ts:70 | the note template sees exactly the seven record fields, each under its own name with its own value |
| TikTokParser.TitleFields | src/parsers/TikTokParser.ts:72-75 | the filename template sees only `authorName` and `date` |
| TikTokParser.PrepareNote | src/parsers/TikTokParser.ts:66-78 | fails exactly when `parseHtml` fails, with its error. A note has extension `md`, the configured category and the one `createdAt`, from which both the content date and the filename date are formatted |
| TikTokParser.MixedLinkPieces | src/parsers/TikTokParser.ts:16-17 | where host, `/t/`, handle, marker and id stand in `https://tiktok.com/t/abc/video/1` |
| TikTokParser.MixedLinkIsCanonical | src/parsers/TikTokParser.ts:16 | a string laid out like `https://tiktok.com/t/abc/video/1` matches CANONICAL_PATTERN |
| TikTokParser.MixedLinkIsShort | src/parsers/TikTokParser.ts:17 | a string laid out like `https://tiktok.com/t/abc/video/1` matches SHORT_PATTERN |
| TikTokParser.BothShapesResolvedOnlyByParseHtml | src/parsers/TikTokParser.ts:82-83 | a link of both shapes is accepted by `test` without a request. `parseHtml` still resolves it, so with its request failing, the link `test` accepted fails to parse |
| TikTokParser.ExampleLinkPieces | src/parsers/TikTokParser.ts:16 | the positions of host, handle, marker and id in `https://www.tiktok.com/@someuser/video/1234567890123456789` |
| TikTokParser.ExampleLinkDecomposition | src/parsers/TikTokParser.ts:16 | a string laid out like that link decomposes with handle `@someuser` and id `1234567890123456789` |
| TikTokParser.ExampleLinkLeftmost | src/parsers/TikTokParser.ts:16 | no match of such a string starts before `tiktok` |
| TikTokParser.ExampleLinkGreedy | src/parsers/TikTokParser.ts:16 | no longer handle than `@someuser` is followed by `/video/<digits>` in such a string |
| TikTokParser.ExampleLinkGroups | src/parsers/TikTokParser.ts:96 | `exec` on such a string gives host `tiktok.com`, handle `@someuser` and id `1234567890123456789` |
| TikTokParser.ExampleLinkIsNotShort | src/parsers/TikTokParser.ts:17 | such a string does not match SHORT_PATTERN |
| TikTokParser.ExampleLinkAccepted | src/parsers/TikTokParser.ts:20-26 | `test` accepts the example link, when it is a valid URL, without a request |
| TikTokParser.ExampleLinkRecord | src/parsers/TikTokParser.ts:96-105 | a page whose description is `desc` gives the record with id `1234567890123456789`, author `@someuser`, profile URL `https://www.tiktok.com/@someuser`, a player for that id, description `desc`, and `og:url` falling back to the link |
| TikTokParser.VmTokenLinkPieces | src/parsers/TikTokParser.ts:17 | the parts of `https://vm.tiktok.com/ABCDEFG/` |
| TikTokParser.VmTokenLinkRejected | src/parsers/TikTokParser.ts:24-38 | `https://vm.tiktok.com/ABCDEFG/` has no `/t/`, so it matches neither pattern and `test` rejects it without a request |
| TikTokParser.CanonicalLinkRecord | src/parsers/TikTokParser.ts:96-105 | a canonical, non-short link with groups H and D: `test` accepts it if valid. `parseHtml` fetches it as it is and returns exactly the record with id D, author H, profile URL of H, a player for D and the page's metadata with fallbacks |
| TikTokParser.AcceptedShortLinkParses | src/parsers/TikTokParser.ts:28-31 | when `test` accepted a short link and the resolved page can be fetched, `parseHtml` and `prepareNote` succeed |
| TikTokParser.ShortLinkParsedIsAccepted | src/parsers/TikTokParser.ts:28-31 | conversely, a valid short, non-canonical link that `parseHtml` reads a record from is accepted by `test` under the same network |

## Design and behaviour notes

- `test` checks the canonical pattern before the short one, but `parseHtml` checks the short
  pattern first. A link of both shapes, such as `https://tiktok.com/t/abc/video/1`, is
  therefore accepted without a request and then resolved when the note is built
  (`BothShapesResolvedOnlyByParseHtml`).
- The two functions also treat empty attributes differently. `resolveShortUrl` treats an
  empty `href` or `og:url` as missing, because it tests truthiness. `parseHtml` keeps an
  empty `og:url` or `og:description`, because `??` replaces only `null`.
- A `vm.tiktok.com/<token>/` link such as `https://vm.tiktok.com/ABCDEFG/` has no `/t/`
  after the domain, so neither pattern matches and `test` rejects it
  (`VmTokenLinkRejected`).
- When the fetched URL does not match CANONICAL_PATTERN, `exec` returns `null` and indexing
  it throws a `TypeError` (src/parsers/TikTokParser.ts:96,100). The model returns the
  `NoCanonicalMatch` error, and only after the page request has succeeded, as in the code.
- `test` is a function of its inputs, so two calls on the same input with the same network
  give the same answer.

## Left out

- The HTTP `request` calls and their user-agent header are network I/O. They are the fetch
  oracle `Env.fetch`. A rejected request of any kind (connection error, status, timeout) is
  `RequestFailed`.
- `Env.fetch` is a function of the URL, so two requests for the same URL get the same
  answer. The source can send the same request twice in one `parseHtml`: when a short link's
  page names the short link itself as canonical (src/parsers/TikTokParser.ts:42,86). The
  model does not capture the second request failing after the first succeeded. No proved
  property depends on this.
- `DOMParser` and `querySelector` are a foreign library. A page is the three optional
  attribute values the parser reads. A missing element and a missing attribute are both
  `None`, because the source treats the two alike.
- `isValidUrl`, `getFormattedDateForContent`, `getFormattedDateForFilename` and
  `templateEngine.render` live in the base class or the template engine, which are not part
  of this model. They are uninterpreted functions in `Env`.
- `new Date()` reads the wall clock. `createdAt` is a parameter of `PrepareNote`.
- `console.error` is a diagnostic side effect and has no counterpart in the model.
- The `Note` class and the plugin settings object are plain values. The embed width and
  height are taken as the strings the template literal interpolates.
- `async`/`await` are sequential function results, and a thrown error is a `Failure` value.
- JavaScript regular expressions without the `u` flag work on UTF-16 code units. The model
  works on Unicode scalar values, so a character outside the Basic Multilingual Plane is one
  `char` here and two code units there. This changes the outcome in one place only: the
  unescaped dot of CANONICAL_PATTERN matches such a character between `tiktok` and `com`
  here, but not in JavaScript.
- Patterns.CanonicalExec: the `index`/`input` properties of the match array and group 3
  (always `video`) are not returned.
- Patterns.ShortExec: the host group 1 is not returned. The token is proved to follow the
  leftmost `tiktok.com/t/`. That this is also the token of the leftmost match start, which
  `exec` picks, is not proved (two occurrences of `tiktok.com/t/` cannot overlap). The
  parser itself only calls `SHORT_PATTERN.test`.
