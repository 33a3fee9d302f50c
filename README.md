# spider-demo, modelled in Dafny

spider-demo is a small crawler for WeChat articles. It fetches one article
page and reads the anchors in the article body (`div.rich_media_wrp`, then
`div.rich_media_content > p > a`). Each anchor's `href` is a module page. For
every module page it visits the `section` elements of the article content, in
document order. A section whose inner HTML contains `mpvoice` holds an audio
widget. From that widget it builds two strings:

- a destination path, `./download/` + the widget's `name` with every
  U+00A0 (no-break space) replaced by `_` + `.mp3`;
- a media URL, `https://res.wx.qq.com/voice/getvoice?mediaid=` + the widget's
  `voice_encode_fileid`.

It then downloads the media URL to that path, one file at a time. The download
streams the response body into the file and drives a progress bar. The bar gets
a start message, one position per chunk (the running byte count capped at the
content length), and a final message.

The project has four files:

- `results.dfy` (`Results`) holds `Option` and `Result`.
- `voice.dfy` (`Voice`) covers detecting `mpvoice` in a section, cleaning the
  name, and building the path and URL. It also covers the way a section's
  extraction can fail. `NameOfPath` and `MediaIdOfUrl` parse a path and a URL
  back; they are the inverses the round-trip lemmas use.
- `downloader.dfy` (`Downloader`) covers `download_file`.
  - The response arrives as data: `None` for a failed GET, or a content
    length plus the stream's items.
  - The file is a `Destination` object whose `contents` the method updates.
  - The progress bar is a `ProgressLog` object whose `events` the method
    appends to.
  - `Download` is the function that specifies the whole call: its result, the
    file it leaves and the progress events it emits. `DownloadFile` and its
    loop, `StreamToFile`, are proved equal to it.
- `pipeline.dfy` (`Pipeline`) covers `main`.
  - The web is a value. It maps each URL to what the selectors find on that
    page, and each task to an optional download failure.
  - A run is a trace of the fetches and downloads it performs, plus its status.
    Every `?` and every `unwrap` in `main` ends the program. The model records
    each of them as a named `Abort` reason.
  - `RunFrom` specifies the crawl as a fold. The imperative `RunPipeline`
    (nested `while` loops) is proved equal to it. `RunFrom` in turn is tied to
    two independent definitions, `ModuleSucceeds` and `PlannedActions`: the
    run completes exactly when every module succeeds, and its trace is then
    the planned one.

The code never checks the HTTP status. `reqwest::get` and `send()` fail only
when the request cannot be made, and neither `main` nor `download_file` reads
the status. So an error page is parsed like any other page, and an error body
that carries a content length is saved like any other body. In the model,
`get` is `None` only for a failed `send()`, and a page is missing from the web
only when its fetch fails.

When `div.rich_media_wrp` (line 63), `div.rich_media_content` on a module
page (line 84) or `mpvoice` in a section (line 95) matches more than once, the
code takes the first match (`.next()`). A page's `wrapper` and `content`, and
a section's `widget`, describe that first match, and `None` means there was no
match. The anchor selector (line 68) and the `section` selector (line 87) are
iterated over every match, in document order.

Every other failure ends the whole run, as the code does. A page without a
wrapper or a content block, an anchor without `href`, an incomplete widget, or
a failed download stops the crawl at that point. No later section or module is
visited.

## Model

| member | source | states |
|---|---|---|
| Voice.FindFrom | src/main.rs:92 | Any position the search returns is at or after the start, and the pattern occurs there. |
| Voice.FindFromSpec | src/main.rs:92 | The search returns the first position at or after the start where the pattern occurs; it returns nothing exactly when there is no such position. |
| Voice.HasMarkerSpec | src/main.rs:90-92 | `HasMarker`: a section counts as holding a voice widget exactly when `mpvoice` occurs somewhere in its inner HTML. |
| Voice.Sanitize | src/main.rs:101 | Cleaning a name keeps its length. |
| Voice.SanitizeSpec | src/main.rs:97-101 | Cleaning keeps the length, turns each no-break space into `_`, keeps every other character in place, and leaves no no-break space behind. |
| Voice.SanitizeConcat | src/main.rs:101 | The replacement works character by character: cleaning a concatenation is the concatenation of the cleaned parts. |
| Voice.SanitizeIdempotent | src/main.rs:101 | Cleaning an already cleaned name changes nothing. |
| Voice.SanitizeKeepsCleanNames | src/main.rs:101 | A name without a no-break space is used unchanged. |
| Voice.SanitizeReplacesNbsp | src/main.rs:101 | A single no-break space between two clean parts becomes `_`, and both parts are kept. |
| Voice.DestinationPath | src/main.rs:97-103 | The path starts with `./download/`, and it is as long as the name plus that prefix and `.mp3`. |
| Voice.DestinationPathShape | src/main.rs:97-103 | The path starts with `./download/` and ends with `.mp3`, its middle is the cleaned name, its length is the name's length plus 15, and it contains no no-break space. |
| Voice.PathRoundTrip | src/main.rs:97-103 | Removing the fixed prefix and suffix from a destination path gives back the cleaned name. |
| Voice.MediaUrl | src/main.rs:104-105 | The URL is the endpoint followed by the unchanged identifier, and its length is the sum of theirs. |
| Voice.UrlRoundTrip | src/main.rs:104-105 | Removing the endpoint from a media URL gives back the identifier. |
| Voice.UrlEndsWithMediaId | src/main.rs:104-105 | The URL ends with `mediaid=` followed by the identifier. |
| Voice.SynthesisInjective | src/main.rs:97-105 | Different identifiers give different URLs; two names give the same path only if they are equal once cleaned. |
| Voice.SectionTask | src/main.rs:90-105 | A section is skipped exactly when it has no `mpvoice`. Extraction fails only on a section that has one, and the failure is `WidgetMissing` exactly when no widget was found. |
| Voice.SectionTaskCases | src/main.rs:90-105 | A section without `mpvoice` is skipped. Otherwise extraction fails exactly when the widget, its `name` or its `voice_encode_fileid` is missing. The error names the first thing missing, in that order: `WidgetMissing`, then `AttributeMissing("name")`, then `AttributeMissing("voice_encode_fileid")`. When extraction succeeds, the path and URL give back the cleaned name and the identifier. |
| Voice.LessonOneExample | src/main.rs:97-105 | The name `Lesson<NBSP>One` with identifier `ABC123` gives `./download/Lesson_One.mp3` and `…getvoice?mediaid=ABC123`. |
| Voice.LessonOneCleaned | src/main.rs:101 | `Lesson<NBSP>One` cleans to `Lesson_One`. |
| Downloader.Clamp | src/main.rs:37 | The reported position is the smaller of the byte count and the content length. |
| Downloader.ReceivedConcat | src/main.rs:33-35 | The file receives the chunks in stream order: the bytes of two consecutive stretches of the stream are the first stretch's bytes followed by the second's. |
| Downloader.Reports | src/main.rs:37-39 | One progress position is reported per received chunk, and nothing else is reported. |
| Downloader.FirstFailure | src/main.rs:33-36 | The index where the stream loop stops lies between the start and the end of the body. |
| Downloader.FirstFailureSpec | src/main.rs:33-36 | The loop stops at index `k` exactly when every item before `k` is a chunk that was written, and `k` is the end of the stream, an item that could not be retrieved, or a failed write. |
| Downloader.StreamResultCases | src/main.rs:33-36 | The loop ends normally exactly when every item is a chunk that is written. Otherwise it fails at the first item that is not: with the stream error if that item could not be retrieved, and with the write error if its write failed. |
| Downloader.Download | src/main.rs:10-44 | The completion message is the last event exactly when the call succeeds. Any progress shown starts with the bar's creation for the content length and the `Downloading <url>` message. The file changes only once the GET, the length check and the creation have all succeeded. |
| Downloader.DownloadFile | src/main.rs:10-44 | The method's result, the file it leaves and the progress events it adds are exactly those of `Download`: the GET check, the length check, the file creation, the stream loop and the completion message. |
| Downloader.StreamToFile | src/main.rs:29-40 | Starting from a freshly created, empty file, the loop writes the bytes of every chunk up to the first failure, in order. It reports one clamped position per written chunk and returns the failure, or success at the end of the stream. |
| Downloader.ReceivedGrows | src/main.rs:33-37 | The bytes received so far never exceed the total, and with non-empty chunks every earlier prefix is strictly shorter. |
| Downloader.ReportsAt | src/main.rs:37-39 | The `i`-th position reported is the byte count after chunk `i`, capped at the content length. |
| Downloader.ReportsMonotone | src/main.rs:37-39 | Reported positions never decrease and never exceed the content length. |
| Downloader.ReportsStrictlyIncrease | src/main.rs:37-39 | With non-empty chunks and an accurate content length, every position is the exact byte count and the positions strictly increase. |
| Downloader.EarlyFailuresTouchNothing | src/main.rs:12-29 | A failed GET or a missing content length returns its error, `Failed to GET from '<url>'` or `Failed to get content length from '<url>'`; it leaves the file untouched and shows nothing. A failed creation returns `Failed to create file '<path>'`, leaves the file untouched and reports no position. |
| Downloader.SuccessWritesTheWholeBody | src/main.rs:29-43 | The call succeeds exactly when the GET, the length check, the creation and every chunk and write succeed. The file then holds exactly the body's bytes, whatever it held before. The bar shows exactly the start message with the content length, one clamped position per chunk, and the completion message `Downloaded <url> to <path>`. |
| Downloader.ProgressIsClampedAndMonotone | src/main.rs:30-40 | All reported positions are non-decreasing and within the content length; on success the last position is the smaller of the byte count and the content length. |
| Downloader.MidStreamFailureKeepsWrittenPrefix | src/main.rs:33-36 | A chunk error or a write error stops the call at the first bad item, with `Error while downloading file` or `Error while writing to file` respectively. The file holds exactly the chunks before it. The events are exactly the start message with the content length followed by one clamped position per written chunk, so the completion message is not shown. |
| Downloader.RerunIsIdempotent | src/main.rs:29 | Running the same download over the file a first run left gives the same result. Once the file is created, the earlier contents do not matter. |
| Downloader.ReceivedUniform | src/main.rs:33-37 | A stream of equal chunks of `n` bytes delivers `n` bytes per chunk. |
| Downloader.TenChunksOfOneHundred | src/main.rs:10-44 | Ten chunks of 100 bytes with a content length of 1000 succeed with 12 progress events, strictly rising positions and a last position of 1000. |
| Pipeline.ModuleLinks | src/main.rs:68-72 | Collecting links succeeds exactly when every anchor has an `href`. It then gives the hrefs in anchor order; otherwise it names the first anchor without one, where `unwrap` panics. |
| Pipeline.CollectModuleLinks | src/main.rs:56-72 | The push loop builds the same link list, or fails at the same anchor, as `ModuleLinks`. |
| Pipeline.RunPipeline | src/main.rs:47-116 | The imperative crawl (seed fetch, link collection, module loop, section loop, download) performs exactly the trace and ends in exactly the status of `RunFrom`. |
| Pipeline.VisitSection | src/main.rs:87-111 | Visiting a section only adds to the trace, and a stopped run is left as it is. |
| Pipeline.VisitSections | src/main.rs:87-112 | The section loop only adds to the trace. |
| Pipeline.VisitModule | src/main.rs:75-112 | Visiting a module only adds to the trace, and a stopped run is left as it is. |
| Pipeline.VisitModules | src/main.rs:75-113 | The module loop only adds to the trace. |
| Pipeline.RunFrom | src/main.rs:47-53 | Every run begins by fetching the seed page. |
| Pipeline.AbortedSectionsStay | src/main.rs:108-110 | After the program has stopped, no further section is visited. |
| Pipeline.AbortedModulesStay | src/main.rs:75-76 | After the program has stopped, no further module is fetched. |
| Pipeline.VisitSectionStep | src/main.rs:87-111 | Visiting one section performs that section's planned download, if any. It goes on exactly when the section's extraction and download both succeed, and otherwise stops with that section's failure. |
| Pipeline.VisitSectionsCompletes | src/main.rs:87-112 | The section loop runs through exactly when every section succeeds, and it then performs the downloads of all sections in order. |
| Pipeline.VisitSectionsAborts | src/main.rs:87-112 | If section `k` is the first to fail, the loop performs the downloads of sections `0..k` and stops with section `k`'s failure. |
| Pipeline.MarkerFreeSectionsAreSkipped | src/main.rs:90-92 | Sections without `mpvoice` cause no fetch, no download and no failure. |
| Pipeline.ModuleRunsThrough | src/main.rs:75-112 | A module whose page loads and whose sections all succeed adds its fetch and its planned downloads, and the run goes on. |
| Pipeline.ModuleFails | src/main.rs:75-112 | A module whose page is missing, has no content block, or has a failing section stops the run. |
| Pipeline.VisitModulesCompletes | src/main.rs:75-113 | The module loop runs through exactly when every module succeeds, and it then performs every module's planned actions in order. |
| Pipeline.VisitModulesStatus | src/main.rs:75-113 | The run is still going after the module loop exactly when every module succeeds. |
| Pipeline.VisitModulesTrace | src/main.rs:75-113 | When every module succeeds, the module loop performs exactly the planned actions, module by module in link order. |
| Pipeline.VisitModulesAborts | src/main.rs:75-113 | If module `k` is the first to fail, the loop performs the planned actions of modules `0..k` and then stops inside module `k`. |
| Pipeline.RunCompletes | src/main.rs:47-116 | `main` returns normally exactly when the seed page loads, has the wrapper, every anchor has an `href`, and every module succeeds. The trace is then the seed fetch followed by each module's fetch and downloads. |
| Pipeline.MissingHrefStopsBeforeAnyModule | src/main.rs:68-72 | If anchor `k` is the first without an `href`, nothing but the seed is fetched. |
| Pipeline.TwoSectionScenario | src/main.rs:75-111 | For one module with two voice sections, where the second lacks its identifier, the first file is downloaded and then the run stops on the missing identifier. |
| Pipeline.LessonOneScenario | src/main.rs:75-111 | The same scenario with a widget named `Lesson<NBSP>One` and identifier `ABC123`: it downloads `…mediaid=ABC123` to `./download/Lesson_One.mp3` and then stops. |

## Left out

- Networking, TLS and the async runtime. A response is given as data: an
  optional content length and the stream's items. A failed GET is `None`.
- HTML parsing and CSS selection. A page is given as what the selectors
  return: the wrapper's anchors as attribute maps, and the content block's
  sections as inner HTML plus the first `mpvoice` element's attributes. The
  `Selector::parse(...).unwrap()` calls act on constant selectors, cannot
  fail, and are not modelled.
- The progress bar's template, style, spinner and rendering. Only the calls
  that carry data are kept: the start message with the total, each position,
  and the final message.
- Which file a path names. `Destination` stands for the single file at the
  path being written. Whether creation succeeds, and which items fail to be
  written, are given as inputs.
- The `println!` of path and URL.
- The hard-coded seed URL. It is a parameter instead.
- The commented-out alternative selector on line 65.
- `examples/demo1.rs`. It is a separate program built on an external crawler
  library and is not part of this model.
- Downloader.StreamToFile: the byte counter is an unbounded integer. The
  source's `downloaded + chunk.len()` in `u64` could overflow only after 2^64
  bytes, which the model does not represent.
- Downloader.FirstFailureSpec: a failed `write_all` may have written part of
  its chunk before failing. The model treats a failed write as writing nothing
  of that chunk.
- Pipeline.RunPipeline: each URL maps to one fixed page. Fetching the same
  link twice therefore gives the same page, and a fetch that succeeds but
  whose body cannot be read as text is a plain `FetchFailed`.
- Pipeline.RunPipeline: a download is represented by its task and its outcome,
  which is given per task. The bytes it writes are described by
  `Downloader.Download`, and they are not threaded through the crawl's state.
- Voice.FindFromSpec: positions count characters, not UTF-8 bytes as Rust's
  `str::find` does. The code only compares the result with `None`, so this
  does not change any outcome.
