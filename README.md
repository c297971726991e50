# screenshotter — a verified model of its decision logic

screenshotter walks a tree of HTML email templates and briefs and renders a
thumbnail of each HTML file in a headless browser. It copies the other files
next to the thumbnails, so the output tree mirrors the input tree. This
project models the parts of it that decide something and proves what they
promise:

- **`Index`** (`src/index.js`) covers how a file is classified by its extension
  (`isHTMLFile`, `isCopyableFile`), what `processFile` does with one file, and
  the recursive `generateThumbnails` walk.
  - The file system and the logger are an object, `FileSystem`. It records every
    action it is asked to do. An oracle set says which actions fail.
  - Each error logged carries where it comes from. This includes the logs of
    the two `src/utils/fileUtils.js` wrappers the walk calls, `copyFile` and
    `createDirectory`. Each of them logs a failure and then rethrows it, so the
    caller's `catch` logs it a second time.
  - The methods are proved against trace functions (`ProcessFileTrace`,
    `WalkTrace`). Lemmas about those functions state dispatch precedence,
    mirroring of the tree and per-file error isolation.
- **`ThumbnailGenerator`** (`src/thumbnailGenerator.js`) and **`LegacyThumbnail`**
  (the older local `generateThumbnail` at `src/index.js:13-64`) model the two
  ways of sizing the viewport.
  - The browser and the file system are a `Host` object (module `Browser`). Each
    call it receives either succeeds or fails, as the environment decides. Each
    call is appended to a ghost event log, together with the warnings and errors
    the generator logs.
  - Each generator is a method proved equal to a function of the environment:
    `Capture` for the current generator and `LegacyCapture` for the older one.
  - Lemmas about those functions cover:
    - the order of the calls;
    - that the browser is closed exactly when it was launched;
    - the sizes of the two viewports;
    - the handling of a network-idle timeout;
    - the outcome, including how `finally` overrides it.
- **`BriefProcessor`** (`src/briefProcessor.js`) covers the rewrites of
  `processHTML`, the temporary file of `processBriefFile` and the
  existence-guarded `cleanup`.
  - A parsed document is its `head` elements and its `body`. The body is a
    sequence of pieces: text, and `link` or `script` elements, which the
    attribute rewrites can change. How cheerio serialises an element is a
    parameter. The assets replacement runs on the body's HTML as serialised
    after the script rewrite.
  - As written, `processHTML` loses the body (see "Findings"). The model keeps
    that behaviour in `ProcessHTMLAsWritten`. The rest of the model uses the
    evidently intended `ProcessHTML`.
  - The global replacement is modelled, `$` patterns of the replacement string
    included, in module **`Replace`**. For a replacement without `$` it is proved equal to split-and-join.
- **`Config`** (`src/config/config.js`) models the settings object.
  - Numeric settings follow `parseInt(env) || default`. `parseInt` is modelled
    after section 19.2.5 of ECMA-262, called without a radix.
  - String settings follow `env || default`.
- **`Paths`** and **`Wrappers`** are helpers: path segments, `path.extname`,
  ASCII lower-casing, and `Option`.

In these points the code does something a reader might not expect, and the
model follows the code:

- A rejection of `browser.close()` in `finally` replaces the function's result or
  exception. It is not logged and does not leave a prior success standing.
- The output file of a failed render is not removed.
- Each call of a generator launches and closes its own browser.
- `parseInt` is called without a radix, so `"0x400"` reads as 1024 (see
  `Config.HexPrefixIsHexadecimal`).

## Model

| member | source | states |
|---|---|---|
| Config.Load | src/config/config.js:5-15 | The limits are the constants 2 and 5. No setting is 0 or empty. Each numeric setting is `NumberOr` of its variable and each string setting is `StringOr` of its variable. Each unset variable gives its default: `email`, 1024, 40, 80, `info`, `http://localhost:5001`, `webp`. A non-empty `INPUT_DIR`, `LOG_LEVEL`, `LOCAL_SERVER_URL` or `THUMBNAIL_FORMAT` is used as given. |
| Config.NumberOr | src/config/config.js:7-9 | `parseInt(v) \|\| default` is the parsed value when that is a nonzero number. NaN and 0 give the default. A nonzero default never yields 0. |
| Config.StringOr | src/config/config.js:6 | `v \|\| default` is the value itself when it is set and non-empty. An unset or empty value gives the default. With a non-empty default the result is never empty. |
| Config.NonzeroSettingIsUsed | src/config/config.js:7-9 | An explicit nonzero number in the environment is used as it is. A negative number passes through unchecked. |
| Config.ZeroSettingFallsBack | src/config/config.js:7-9 | An explicit `0` or `-0` in the environment gives the default. |
| Config.EmptySettingFallsBack | src/config/config.js:7-9 | An unset variable (read as `"undefined"`) and an empty value give the default. |
| Config.NumberWithUnit | src/config/config.js:7-9 | `parseInt` reads the numeric prefix: `"<n>px"` gives n. |
| Config.HexPrefixIsHexadecimal | src/config/config.js:7-9 | Without a radix argument, a `0x` prefix is hexadecimal: `"0x400"` gives 1024. |
| Config.ParseSignedDecimal | src/config/config.js:7-9 | `parseInt` reads back the decimal numeral of every integer, negative ones included. |
| Config.ParseDigitsThenRest | src/config/config.js:7-9 | A run of decimal digits followed by text that cannot continue the number parses to the run's value. |
| Config.UndefinedIsNaN | src/config/config.js:7-9 | An unset variable reads as `"undefined"`, and `parseInt` of that is NaN. |
| Config.DigitPrefix | src/config/config.js:7-9 | The digits `parseInt` converts form the longest prefix of the text made only of digits of the radix. |
| Config.TrimStartDropsOnlyWhiteSpace | src/config/config.js:7-9 | `parseInt` skips leading white space and nothing else. |
| Config.TrimStartDropsAllWhiteSpace | src/config/config.js:7-9 | After the skip, no white space is left in front. |
| Config.DecimalValue | src/config/config.js:7-9 | A decimal numeral's value is the number it was written from. |
| Paths.ExtnameIs | src/index.js:95 | `path.extname` returns a one-dot extension exactly when the name ends with it after a non-empty stem. |
| Paths.ExtnameLower | src/index.js:99 | The extension of the lower-cased name is the lower-cased extension. |
| Paths.LastDotIsLast | src/index.js:95 | The dot `path.extname` starts from has no dot after it. When none is found, there is no dot. |
| Index.HtmlFileIsSuffix | src/index.js:94-96 | A file is HTML if and only if its name is a non-empty stem followed by the case-sensitive `.html`. |
| Index.CopyableFileIsNotImage | src/index.js:98-101 | A file is copyable if and only if its lower-cased name does not end with `.png` or `.webp` after a non-empty stem. |
| Index.HtmlFileIsCopyable | src/index.js:94-101 | Every HTML file is also copyable. |
| Index.UpperCaseExtensions | src/index.js:94-101 | `page.HTML` is not HTML but is copyable. `shot.PNG` is not copyable. |
| Index.ProcessFile | src/index.js:103-126 | The new trace is the old one followed by `ProcessFileTrace`, the trace of `processFile`. |
| Index.ProcessFileMakesDirectoryFirst | src/index.js:103-126 | `ensureDir(outputDir)` comes first. If it fails, only an error about the file is logged. Every error logged is about this file or about copying it. A failed copy is logged twice, first by `copyFile` and then by `processFile`'s `catch`. |
| Index.DispatchLogs | src/index.js:109-125 | After the directory is made, every error logged is about the file or its copy. A thumbnail is only made in the HTML branch, at `outputDir/thumb.webp`. A failed copy ends the trace with the copy and its two error logs. |
| Index.CopyFile | src/utils/fileUtils.js:44-52 | `copyFile` succeeds exactly when the copy does. A failed copy is logged with its source and destination before it is rethrown. |
| Index.CreateDirectory | src/utils/fileUtils.js:12-20 | `createDirectory` succeeds exactly when `ensureDir` does. A failure is logged with the directory before it is rethrown. |
| Index.CopyInto | src/index.js:117-125 | A copy inside `processFile` adds the copy, and on failure the wrapper's log and then `processFile`'s log about the file. |
| Index.ProcessHtmlFile | src/index.js:109-117 | An HTML file is rendered to `outputDir/thumb.webp` and then copied under its own name. The copy happens even when the render fails. |
| Index.ProcessCopyableFile | src/index.js:118-122 | Any other copyable file is copied under its own name. No thumbnail is made. |
| Index.ProcessImageFile | src/index.js:107-122 | A `.png` or `.webp` file, in any case, gets only `ensureDir` and possibly an error log. |
| Index.ThumbnailOnlyForHtml | src/index.js:109-113 | A thumbnail is only made for an HTML file, and always at `outputDir/thumb.webp`. |
| Index.ThumbnailPathIgnoresName | src/index.js:112 | Whatever else fails, once the output directory is made, two HTML files of one directory both render first, and to the same thumbnail path `outputDir/thumb.webp`. |
| Index.ProcessFileActions | src/index.js:103-126 | `processFile` does nothing but make the output directory, render the thumbnail, copy the file and log errors about it. |
| Index.GenerateThumbnails | src/index.js:129-153 | The new trace is the old one followed by `WalkTrace`, the trace of `generateThumbnails`. A missing input directory logs an error and does nothing else. A failure to make the output directory is logged by `createDirectory` and again by the walk's `catch`, and the input is not read. |
| Index.HandleEntries | src/index.js:136-147 | The tasks of a listing run one after the other. Each one's actions follow the previous one's. |
| Index.EntriesAppend | src/index.js:138-147 | The tasks of a listing are the tasks of its parts, so a sibling's failure never removes an entry's actions. |
| Index.GenerateThumbnailsMirrors | src/index.js:138-146 | Every action of the walk stays in step with the two trees. Directories are made under the output root and read under the input root. A copy keeps its path relative to the roots, and a thumbnail lands in the mirrored directory. |
| Index.WalkHandlesEveryFile | src/index.js:129-153 | When nothing fails, every file anywhere below the input directory is handled. An HTML file is rendered into its mirrored directory. Every copyable file is copied to its mirrored path. |
| Browser.ExecuteFollowsPlan | src/thumbnailGenerator.js:23-63 | The calls made are the block's calls in order, up to and including the one that threw. All of them are made when nothing threw. |
| Browser.ExecuteCompletes | src/thumbnailGenerator.js:23-63 | The block completes if and only if every call that is not a swallowed wait succeeds. |
| Browser.ExecuteStopsAtFirstFailure | src/thumbnailGenerator.js:23-63 | The block throws at its first failing call that is not a swallowed wait. |
| Browser.ExecuteLogsOnlyPlannedCalls | src/thumbnailGenerator.js:23-63 | Inside the block nothing is logged as an error, and every call made comes from the block. |
| Browser.ExecuteWarnsAt | src/thumbnailGenerator.js:36-38 | A wait that times out after every earlier call succeeded is logged as a warning. |
| Browser.ExecuteWarnsOnlyOnIdle | src/thumbnailGenerator.js:36-38 | A warning is only logged when swallowing is on, for a wait of the block that timed out after every earlier call succeeded. |
| Browser.IdleFailureIsSwallowed | src/thumbnailGenerator.js:36-38 | Whether the bounded wait fails changes neither the calls made, nor the call that threw, nor where the block stops. |
| ThumbnailGenerator.CapturePlan | src/thumbnailGenerator.js:23-63 | The block opens a page, sets the probe viewport `(thumbnailWidth, minThumbnailHeight, 1)`, loads the content, waits for the network with a 5000 ms bound, and measures both scroll heights. The final viewport keeps the width and scale factor. Its height is the largest of the two scroll heights and the minimum. Then the screenshot is taken at the output path, in `thumbnailFormat` at `thumbnailQuality` and not full-page, and the file is checked with `stat`. Only the fourth call is the network-idle wait, and the block never closes the browser. |
| ThumbnailGenerator.GenerateThumbnail | src/thumbnailGenerator.js:7-75 | The log grows by exactly the events of `Capture`, and the outcome is that of `Capture`. |
| ThumbnailGenerator.RunSession | src/thumbnailGenerator.js:17-74 | The log grows by exactly the events of `Session`, and the outcome is that of `Session`. |
| ThumbnailGenerator.SessionLog | src/thumbnailGenerator.js:67-74 | The session logs the block's calls and then `close`. It logs an error exactly when the block threw. |
| ThumbnailGenerator.InvokeLog | src/thumbnailGenerator.js:7-21 | For each way an invocation can go, this gives the calls it logs and whether it logs an error: empty content, `ensureDir` failing outside the `try`, the launch failing, or the session running. |
| ThumbnailGenerator.InvokeCallOrder | src/thumbnailGenerator.js:8-74 | Empty content makes no call. Otherwise the calls are `ensureDir`, `launch`, a prefix of the block, then `close`. The browser is closed if and only if it was launched, and only as the last call. |
| ThumbnailGenerator.InvokeIdleTimeoutIsSwallowed | src/thumbnailGenerator.js:36-38 | Once the run reaches the wait, a timeout there changes neither the outcome, nor the calls made, nor whether an error is logged. |
| ThumbnailGenerator.InvokeWarnsOnIdleTimeout | src/thumbnailGenerator.js:36-38 | A warning is logged exactly when the content is non-empty, every call before the wait succeeded and the wait timed out. |
| ThumbnailGenerator.InvokeSucceeds | src/thumbnailGenerator.js:8-66 | The invocation resolves with the output path if and only if the content is non-empty and every call except the wait succeeds. It then made every planned call, closed the browser and logged no error. |
| ThumbnailGenerator.InvokeFailureIsLogged | src/thumbnailGenerator.js:8-74 | Logging an error means the invocation rejected. Every rejection other than `ensureDir`'s and `close`'s is logged. Once the browser is launched, a failing `close` decides the outcome. |
| ThumbnailGenerator.CaptureCallOrder | src/thumbnailGenerator.js:8-74 | `InvokeCallOrder` for the calls `generateThumbnail` itself plans. Empty content makes no call. A failed `ensureDir` is the only call. A failed launch follows `ensureDir`. Once launched, the calls are `ensureDir`, `launch`, a prefix of the planned block and then the only `close`. The browser is closed if and only if it was launched. |
| ThumbnailGenerator.CaptureIdleTimeoutIsSwallowed | src/thumbnailGenerator.js:36-38 | `InvokeIdleTimeoutIsSwallowed` for `generateThumbnail` itself: a timeout of the wait changes neither the outcome, nor the calls made, nor whether an error is logged. |
| ThumbnailGenerator.CaptureWarnsOnIdleTimeout | src/thumbnailGenerator.js:36-38 | `generateThumbnail` logs a warning exactly when the content is non-empty, every call before the wait succeeded and the wait timed out. |
| ThumbnailGenerator.CaptureSucceeds | src/thumbnailGenerator.js:8-66 | `InvokeSucceeds` for `generateThumbnail` itself. Success resolves the output path. On success the calls are `ensureDir`, `launch`, the planned block, then `close`, and no error is logged. |
| ThumbnailGenerator.CaptureFailureIsLogged | src/thumbnailGenerator.js:67-74 | `InvokeFailureIsLogged` for `generateThumbnail` itself. |
| LegacyThumbnail.LegacyPlan | src/index.js:24-54 | The probe viewport is `(thumbnailWidth, minThumbnailHeight, 1)`. The final viewport takes the document's scroll height unclamped. The wait is passed no timeout option, so the library's default timeout applies, and a rejection of the wait is not caught. The block never closes the browser, checks the file or makes a directory. |
| LegacyThumbnail.LegacyGenerateThumbnail | src/index.js:13-64 | The log grows by exactly the events of `LegacyCapture`, and the outcome is that of `LegacyCapture`. |
| LegacyThumbnail.LegacyRunSession | src/index.js:23-63 | The log grows by exactly the events of `LegacySession`, and the outcome is that of `LegacySession`. |
| LegacyThumbnail.VerifyCalls | src/index.js:56-60 | `fs.exists` is called, then `fs.stat` exactly when the file exists. Only a failing `stat` throws. |
| LegacyThumbnail.LegacySessionLog | src/index.js:23-63 | The session logs the block's calls, the existence check when the block completed, then `close`. It logs no error. |
| LegacyThumbnail.LegacyInvokeLog | src/index.js:13-63 | The calls and errors of each way an invocation can go. |
| LegacyThumbnail.LegacyErrorOnlyForEmptyContent | src/index.js:14-17 | The local generator catches nothing. It logs an error exactly for empty content. |
| LegacyThumbnail.LegacySessionClosesLast | src/index.js:61-63 | A session's only `close` is its last call. |
| LegacyThumbnail.LegacySessionCallsOnly | src/index.js:23-63 | A session calls only what its block plans, `fs.exists`, `fs.stat` and `close`. |
| LegacyThumbnail.LegacyInvokeCallOrder | src/index.js:13-63 | Empty content makes no call. A failed launch is the only call. Once launched, the calls start with `launch` and end with the only `close`. The browser is closed if and only if it was launched. Every call is `launch`, a planned call, `fs.exists`, `fs.stat` or `close`. |
| LegacyThumbnail.LegacyInvokeSucceeds | src/index.js:13-63 | The local generator resolves `undefined`, never the path. It resolves if and only if all of these succeed: the launch (given non-empty content), every call of the block, the `stat` made when the file exists, and `close`. |
| LegacyThumbnail.LegacyIdleTimeoutRejects | src/index.js:37-63 | A failing network-idle wait is not swallowed. The invocation rejects with it, or with `close`, after closing the browser. |
| LegacyThumbnail.LegacyCaptureCallOrder | src/index.js:13-63 | `LegacyInvokeCallOrder` and `LegacyErrorOnlyForEmptyContent` for the local `generateThumbnail` itself: the same cases and call order. No output directory is made at all. |
| LegacyThumbnail.LegacyCaptureSucceeds | src/index.js:13-63 | `LegacyInvokeSucceeds` for the local `generateThumbnail` itself. |
| LegacyThumbnail.LegacyCaptureIdleTimeoutRejects | src/index.js:37 | `LegacyIdleTimeoutRejects` for the local `generateThumbnail`, with the calls written out. |
| LegacyThumbnail.LegacyViewportCanUndershoot | src/index.js:39-48 | A document shorter than the minimum gets a final viewport below the minimum in the local generator. In `thumbnailGenerator.js` it never does. |
| Replace.IndexOfIsFirst | src/briefProcessor.js:22 | The scan finds the first occurrence of the pattern, and finds none only when there is none. |
| Replace.LiteralSubstitution | src/briefProcessor.js:22 | A replacement string without `$` is inserted literally. |
| Replace.ReplaceAllWithoutMatch | src/briefProcessor.js:22 | A text that does not contain the pattern is returned unchanged. |
| Replace.ReplaceAllIsSplitJoin | src/briefProcessor.js:22 | With a replacement without `$`, the global replace equals `split(pat).join(rep)`. |
| Replace.SplitJoinRoundTrip | src/briefProcessor.js:22 | Splitting on the pattern and joining with it gives back the text. |
| Replace.SplitPartsLackPattern | src/briefProcessor.js:22 | No piece of the split contains the pattern. |
| BriefProcessor.RewritesSelectedAttributes | src/briefProcessor.js:15-18 | In `head`, a link whose `href` contains `../shared/dist/main.css` gets the whole `href` replaced by `url/dist/main.css`. A script whose `src` contains `../shared/src/getbundle.js` gets the whole `src` replaced by `url/main.js`. Every other attribute and element is unchanged. |
| BriefProcessor.RewritesBodyScripts | src/briefProcessor.js:15-18 | In `body`, a script whose `src` contains `../shared/src/getbundle.js` gets the whole `src` replaced by `url/main.js`. Body links, text and every other element are left as they were, because the link selector is limited to `head`. |
| BriefProcessor.RewriteBodyWithoutScripts | src/briefProcessor.js:18 | A body without a matching script is left unchanged by the attribute rewrites. |
| BriefProcessor.AttributeRewritesAreIdempotent | src/briefProcessor.js:15-18 | Running the attribute rewrites a second time changes nothing, in `head` and in `body`. |
| BriefProcessor.BodyWithoutAssetsIsUnchanged | src/briefProcessor.js:21-23 | A body with no matching script and without `../shared/assets/` keeps its inner HTML. |
| BriefProcessor.BodyAssetsAreReplaced | src/briefProcessor.js:18-23 | The body's inner HTML, serialised after the script rewrite, has every left-to-right, non-overlapping occurrence of `../shared/assets/` replaced by `url/assets/`. The pieces in between do not contain it and are kept as they were. |
| BriefProcessor.AsWrittenLosesBody | src/briefProcessor.js:21-23 | As written, a brief whose body is `<p>hi</p>` comes out with the text of the bound function as its body. The intended `ProcessHTML` keeps `<p>hi</p>`. |
| BriefProcessor.BriefHTMLProcessor.constructor | src/briefProcessor.js:7-9 | The server URL is the argument, or `http://localhost:5001` when none is given. |
| BriefProcessor.BriefHTMLProcessor.ProcessBriefFile | src/briefProcessor.js:28-40 | The outcome and the files afterwards are those of `BriefFileEffect`, and no directory changes. |
| BriefProcessor.BriefHTMLProcessor.Cleanup | src/briefProcessor.js:42-46 | The files and directories afterwards are those of `CleanupEffect`: the path is removed only when it exists. |
| BriefProcessor.TempPath | src/briefProcessor.js:33 | The temporary file is `temp-index.html` directly inside the output directory. |
| BriefProcessor.BriefFileWritesTemp | src/briefProcessor.js:28-40 | Processing succeeds if and only if the input exists and the temporary file can be written. It then returns the temporary path, whatever the input is called, with the processed document, which is what the file holds. No other file changes. |
| BriefProcessor.BriefThenCleanupRestores | src/briefProcessor.js:28-46 | Processing a brief and then cleaning up leaves every file outside the temporary path as it was. A file left at the temporary path from before, and anything under it, is lost. |
| BriefProcessor.BriefThenCleanupRestoresFresh | src/briefProcessor.js:28-46 | With nothing at or under the temporary path beforehand, processing a brief and then cleaning up leaves the files exactly as they were. |
| BriefProcessor.CleanupIsIdempotent | src/briefProcessor.js:42-46 | When the path exists, `cleanup` removes it and everything under it, and nothing else. When it does not exist, nothing changes. Either way nothing is left at the path, and a second `cleanup` changes nothing. |
| BriefProcessor.RemoveIsIdempotent | src/briefProcessor.js:44 | Removing a path twice is removing it once. |

## Findings

| source | as written | input that shows it | evidently intended | confidence | as-written member | corrected member |
|---|---|---|---|---|---|---|
| src/briefProcessor.js:21-23 | `$('body').html(fn)` is given a bound function. cheerio's `.html(value)` takes a string or a selection and converts anything else to a string, so the callback is never called. The body becomes the text of the function. | A brief whose body is `<p>hi</p>` | The body's inner HTML with `../shared/assets/` replaced by `url/assets/`, as the callback computes it | not executed | BriefProcessor.ProcessHTMLAsWritten, BriefProcessor.AsWrittenLosesBody | BriefProcessor.ProcessHTML, BriefProcessor.BodyAssetsAreReplaced |

## Left out

- The `Promise.all` fan-out in `generateThumbnails` runs its tasks concurrently. The model runs them one after the other. Every task catches its own errors, so no task rejects and no interleaving is modelled.
- `templateProcessingLimit` and `fileProcessingLimit` are only modelled as constants. No code enforces them.
- `processHTMLFile` (`src/index.js:71-90`) is the single action `Thumbnail(src, dst)`. That action may fail, and its failure is logged as one error about the file. Both of its own error logs become that one log: the one at line 81 for an empty template result and the one in its `catch`. Reading the file, the template processor (`src/htmlProcessor.js`) and the render itself are not modelled. `src/htmlProcessor.js` is not part of this model.
- The info messages of the logger are not modelled. Error logs are modelled, with where they come from but not their text. So is the warning of the bounded network-idle wait.
- `main()` is not modelled. `config.outputDir` does not exist, so `main()` passes `undefined` as the output directory.
- The model does not cover the CLI, the email processor, `src/briefProcessorFile.js`, `src/emailProcessorFile.js`, the logger setup or `findHTMLFiles` in `src/utils/fileUtils.js`. They are I/O plumbing around the modelled core, and the walk does not call `findHTMLFiles`.
- The launch options, the `waitUntil` options of `setContent`, and the rendering and measuring done by the browser are foreign code.
  - The heights a page measures are a parameter, `measure`.
  - Whether each call fails is a parameter: the set of failing call indices.
- `Index.FileSystem`: whether an action fails depends only on the action, so a repeated action always fails or succeeds the same way. In particular, `ensureDir(outputDir)` fails in every `processFile` of a directory exactly when it failed in the walk's `createDirectory`, and the walk then never reaches those `processFile` calls. Transient failures, where a retry of the same action gives a different result, are not modelled.
- The file size logged after `fs.stat` is not modelled. Only whether `stat` succeeds matters.
- cheerio's parsing, selector engine and serialisation are foreign code.
  - A document is its `head` elements and its `body` pieces. Only `link` and `script` elements are pieces of their own in the body. Every other part of the body is text. `$.html()` is the same document.
  - How cheerio serialises an element back to HTML is a parameter, `serialize`. Nothing is assumed about it.
- `ParseInt` is limited to an integer model. `parseInt` returns a JavaScript Number, so precision loss above 2^53 is not modelled.
- `ToLowerAscii` lower-cases only ASCII letters, not all of Unicode as `toLowerCase` does. No extension the code compares against needs more.
- `Paths.Extname` works on file names only, as a directory listing yields them. Separators inside a name and Windows paths are not modelled.
- `BriefProcessor.Disk.Remove` always succeeds. A rejection of `fs.remove` (permissions, for example) is not modelled.
- `Config.ParseDigitsThenRest` covers only unsigned numerals. A negative numeral with trailing text is not covered; `Config.ParseSignedDecimal` covers negative numerals without it.
- `Replace.ReplaceAllIsSplitJoin` and `BriefProcessor.BodyAssetsAreReplaced` assume a server URL without `$`. With a `$` in it, `replace` expands `$$`, `$&`, `` $` `` and `$'`. The model's `Replace.Substitute` does this, but no split-and-join form is stated for it.
