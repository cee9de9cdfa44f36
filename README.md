# A verified model of the core of a site mirrorer

`inidirici.py` mirrors a web site. It fetches a page, then works through the
references in it. Resources (images, scripts, styles, media, fonts, PDFs) are queued
for download, and the attribute that named them is rewritten to a relative link.
Anchors to other pages are followed when `--follow-redirects` is given, up to a depth
limit. The rewritten page is then written to disk. Worker threads take the queued
downloads from a shared FIFO queue and save each file unless its declared size exceeds
the limit.

This project models that core in Dafny and proves what the code promises about it.
Module by module:

- `Strings` holds string helpers in Python's terms: `split`, `join`, `strip`,
  `lstrip`/`rstrip`, `rfind`, ASCII `lower`, and substring and token membership.
- `Paths` holds `sanitize_filename` and POSIX `os.path`:
  - `splitext`, `join` and `dirname`;
  - `abspath`/`normpath` on segment lists, `relpath`;
  - the page-path mapping.
- `Classify` holds the URL and element data, the tag table, `RESOURCE_TYPES`, the
  per-reference decision of the dispatch loop, and the `--include-types` list.
- `Downloads` holds:
  - the size gate of `save_file`;
  - the queue, as a class with its count of unfinished tasks;
  - `download_worker`'s loop, both as a specification function and as a method
    proved equal to it;
  - the stop signals.
- `Traversal` specifies `parse_and_download` by three mutually recursive functions
  over the traversal state and proves its invariant. The `Crawler` class's `Crawl`
  method, with its nested loops and in-place updates, is proved equal to that
  specification.
- `Mirror` models `main` from the seed check on. It crawls from depth 0, lets the
  started workers drain the queue one after another, and waits for every task
  (`join`). It then puts one stop signal per started thread and lets each worker take
  what it finds.

The outside world is made of parameters:
- the web is a function from URL to an optional page (`None` is a failed fetch);
- `urljoin` is an uninterpreted total function (one that never raises; see "## Left out");
- download replies are a function from URL to a response (a request error, or a reply
  with its `content-length` header: absent, numeric, or text `int()` rejects);
- the working directory is a path string.

A page is the sequence of its elements, each a tag name with its attribute values.

The model follows the code as written. For each of the three defects listed under
"## Findings", a corrected member is also proved: `Mirror.RunWith` takes a `Variant`
that selects the program as written or with its include list and stop signal
corrected.

## Model

| member | source | states |
|---|---|---|
| Paths.Sanitize | inidirici.py:33-35 | the output has the input's length; each of `\ / * ? : " < > \|` becomes `_`; every other character is kept; no such character remains |
| Paths.SanitizeIdempotent | inidirici.py:33-35 | sanitising a sanitised name changes nothing |
| Classify.IsValidUrl | inidirici.py:41-44 | a URL is valid when both its scheme and its network location are non-empty |
| Paths.SplitExt | inidirici.py:110 | `os.path.splitext`: the two parts concatenate to the path; the extension is empty or one dot followed by no dot and no slash |
| Paths.Ext | inidirici.py:110 | the extension is a suffix of the path, and is empty or one dot followed by no dot and no slash |
| Paths.ExtWitness | inidirici.py:110 | a non-empty extension sits in the final segment, after a character that is neither a dot nor a slash, so leading dots never start one |
| Paths.ExtFound | inidirici.py:110 | the converse: a dot in the final segment after a character that is not a dot gives a non-empty extension, which runs from the last dot |
| Paths.PagePath | inidirici.py:106-111 | the URL path is kept as a prefix of the page path; when anything is added, the page path ends in `index.html` |
| Paths.PagePathIndex | inidirici.py:106-111 | the path changes exactly when it ends in `/` or has no extension; it then becomes `dir/index.html`, where `dir` is the path less its trailing `/`, or the whole path when it has no extension |
| Paths.PagePathHasExtension | inidirici.py:106-111 | every mapped page path has an extension, so it names a file |
| Paths.PagePathIdempotent | inidirici.py:106-111 | mapping a mapped path again leaves it unchanged |
| Paths.Join | inidirici.py:113 | `os.path.join` of a non-empty component is non-empty; an absolute second component replaces the first; a relative one is appended, so the result starts with the first and ends with the second |
| Paths.SavePath | inidirici.py:113 | the save path starts with the output directory and ends with the page path less its leading slashes |
| Paths.SavePathUnderSaveDir | inidirici.py:113 | the page is mapped to its page path, leading `/` removed, resolved under the output directory |
| Paths.ResourceName | inidirici.py:141 | the sanitised resource name contains no `/` and no `\` |
| Paths.ResourcePath | inidirici.py:141 | the resource path starts with the output directory and ends with the sanitised resource name |
| Paths.ResourceIsChildOfSaveDir | inidirici.py:141 | a resource with an extension is mapped to one direct child of the output directory, its whole URL path flattened into one name |
| Paths.Dirname | inidirici.py:147 | `os.path.dirname` is a prefix of the path, and is empty when the path has no slash |
| Paths.DirnameParent | inidirici.py:147 | `dirname` gives the parent: joining the last segment back onto it resolves to the path itself, with or without trailing slashes on the head |
| Paths.RelPath | inidirici.py:147 | `relpath` is never empty: the same directory gives `.` |
| Paths.Abs | inidirici.py:147 | `abspath` yields segments that are all normal (not empty, `.` or `..`, and slash-free) |
| Paths.NormAppend | inidirici.py:147 | normalising a concatenation is normalising the second part after the first |
| Paths.AbsJoin | inidirici.py:147 | resolving `join(start, r)` for a relative `r` is walking `r`'s segments from `start` |
| Paths.RelSegmentsResolve | inidirici.py:147 | the `..` segments and the target's remaining segments of `relpath`, walked from the start, reach the target |
| Paths.RelPathResolves | inidirici.py:147 | `relpath(path, start)`, joined to `start`, resolves to `path` |
| Paths.RelLink | inidirici.py:147-148 | the rewritten link holds no backslash and has the length of the `relpath` it comes from |
| Paths.RewrittenLinkResolves | inidirici.py:147-148 | when no segment of the target holds a backslash, the rewritten link read from `start` reaches the target |
| Paths.ResourcePathNonEmpty | inidirici.py:141 | a resource with an extension has a non-empty save path |
| Paths.ResourceLinkResolves | inidirici.py:141-148 | a resource's rewritten link reaches the resource's mapped path, when the working and output directories hold no backslash |
| Paths.WrittenFile | inidirici.py:67 | the file opened for a path contains no `/` and has the path's length |
| Paths.FlattenedLinkMisses | inidirici.py:152 | for a page at `/` of output directory `site` that links `/a.png` from working directory `/w`: the page is written as `site_index.html`, the image as `site_a.png`, and the link `a.png` reaches neither |
| Classify.NoFollow | inidirici.py:131 | the `nofollow` test: a whitespace token of `rel` on `a` and `link`, a substring test on other tags |
| Classify.Decide | inidirici.py:129-150 | Skip exactly when the value is empty, `rel` holds `nofollow`, or a non-empty include list lacks the lowercased extension; Download exactly when not skipped, the extension is a resource type and the URL is valid and unvisited, with the mapped resource path; Follow exactly when not skipped, the extension is not a resource type, the tag is `a`, following is on and the URL is valid and unvisited |
| Strings.Split | inidirici.py:249 | `split` gives at least one piece, and no piece holds the separator |
| Strings.Strip | inidirici.py:249 | `strip` leaves no whitespace at either end and keeps every character that is not whitespace |
| Strings.StripIsSlice | inidirici.py:249 | `strip` returns one contiguous slice of its input, in order, with only whitespace outside it |
| Classify.IncludeTypes | inidirici.py:249 | no list when the option is absent or empty, otherwise one entry per comma-separated piece |
| Classify.IncludeTypesOfPieces | inidirici.py:249 | for comma-free pieces joined by commas, the list is `"." + strip(piece)` for each piece, in order (none for the empty option) |
| Classify.DottedIncludePair | inidirici.py:249 | the help text's form `.jpg,.png` gives the two entries `..jpg` and `..png` |
| Classify.IncludeTypesDotted | inidirici.py:249 | every entry of the include list starts with a dot |
| Classify.RefExtOneDot | inidirici.py:135-137 | a lowercased reference extension is empty or has exactly one dot, at its front |
| Classify.DottedIncludeSkipsAll | inidirici.py:249 | `--include-types .jpg` (any dotted word) yields `..jpg`, and then every reference is skipped |
| Classify.IncludeTypesCorrected | inidirici.py:249 | the corrected list has the same shape, and every entry starts with a dot |
| Classify.IncludeTypesCorrectedOfPieces | inidirici.py:249 | for comma-free pieces joined by commas, the corrected list is each stripped piece with one leading dot, in order |
| Classify.CorrectedIncludeAcceptsBothForms | inidirici.py:249 | with the corrected list, `.jpg` and `jpg` both give the single entry `.jpg` |
| Classify.ImageQueuedNofollowSkipped | inidirici.py:129-148 | an `img` with a `.png` source is queued at its mapped path; an anchor whose `rel` is `nofollow` is skipped whatever the follow flag |
| Classify.ResourceHasExt | inidirici.py:137-145 | a reference whose lowercased extension is a resource type has a non-empty extension |
| Classify.IncludeFilterSelects | inidirici.py:137-146 | with the list `[".jpg"]`, a `.jpg` image is queued and a `.png` image skipped |
| Downloads.SaveFile | inidirici.py:56-82 | a request error fails; a malformed length raises; too large exactly when the declared size (0 if absent) exceeds `max_size*1024*1024`; otherwise saved under the re-sanitised path |
| Downloads.SizeGateBoundary | inidirici.py:61-65 | an absent length is never too large for a non-negative limit; exactly the limit passes; one byte more is rejected |
| Downloads.RunWorker | inidirici.py:84-91 | a worker takes at least one item from a non-empty queue, waits on an empty one, and calls `task_done` at most once per task it handled and once per item it took |
| Downloads.WorkerLeavesSuffix | inidirici.py:84-91 | a worker takes a prefix of the queue and leaves the remaining suffix, in order |
| Downloads.WorkerStopsAtSignal | inidirici.py:84-91 | tasks before the first signal are handled in FIFO order with one `task_done` each; the signal gets none and the rest of the queue is left; a bare `None` ends the worker with `TypeError`, a tuple with URL `None` at `break` |
| Downloads.WorkerDrains | inidirici.py:84-91 | without signals and raising tasks, the worker handles the whole queue in order and then waits |
| Downloads.WorkerDiesOnRaise | inidirici.py:61-91 | a task whose length header `int()` rejects kills the worker after the tasks before it, with no `task_done` for it |
| Downloads.Shutdown | inidirici.py:267-270 | at most one exit per started worker and per queued item, and at least one when a worker is running and the queue is not empty |
| Downloads.StopSignal | inidirici.py:268 | the signal put by `main` is not a task |
| Downloads.ShutdownAsWritten | inidirici.py:86-89 | with `threads` bare `None`s queued, each of the `threads` workers ends with the unpacking error |
| Downloads.StopSignalCorrected | inidirici.py:88 | the signal the worker tests for is not a task |
| Downloads.ShutdownCorrected | inidirici.py:86-89 | with the corrected signal, each of the `threads` workers leaves its loop at `break` |
| Downloads.DownloadQueue.Put | inidirici.py:146 | the item goes to the back, and the unfinished count rises by one |
| Downloads.DownloadQueue.Get | inidirici.py:87 | the front item is removed and returned |
| Downloads.DownloadQueue.TaskDone | inidirici.py:91 | the unfinished count drops by one |
| Downloads.Work | inidirici.py:84-91 | the loop's tasks, exit and the queue left behind are those of `RunWorker`, and the unfinished count drops by its `task_done` calls |
| Traversal.Crawled | inidirici.py:93-157 | past the depth limit, or for a visited URL, nothing changes; otherwise the URL is visited and fetched at this depth, even if the fetch fails; a failed fetch changes nothing else; a fetched page is written last, under the name its URL maps to; the state only grows; every new fetch is at this depth or deeper |
| Traversal.Dispatch | inidirici.py:128-150 | the tag table and elements are walked in order; elements, names and attribute names are kept, and any rewritten value holds no backslash; the state only grows |
| Traversal.Decision | inidirici.py:130-140 | a download or follow names the resolved value of the entry's attribute, a valid unvisited URL; a download's path is the mapped resource path; only `a` tags are followed, and only with following on |
| Traversal.Step | inidirici.py:130-150 | only the element at hand can change, and only on a download; only a followed anchor can visit, fetch or write anything; the state only grows |
| Traversal.StepDownload | inidirici.py:145-148 | on a download decision, whose mapped path is non-empty, the step is `Enqueue` |
| Traversal.Enqueue | inidirici.py:146-148 | a download appends exactly one task, the URL with its mapped path, to the queue, rewrites only the element at hand, and only its attribute, to the relative link from the page's directory, and changes nothing else |
| Traversal.StepFollow | inidirici.py:149-150 | on a decision to follow, the step is the crawl of the target one level deeper, and the page is unchanged |
| Traversal.StepOther | inidirici.py:129-150 | on any other decision the step changes neither the page nor the state |
| Traversal.DownloadQueued | inidirici.py:140-146 | a download decision names a task of a valid URL with a resource extension admitted by the include list, queued under its mapped path, for an attribute the element has |
| Traversal.FollowValid | inidirici.py:149-150 | only valid URLs of `a` tags are followed |
| Traversal.VisitKeepsGood | inidirici.py:98-102 | marking a new valid URL visited and fetching it within the depth limit keeps `Good` |
| Traversal.WriteKeepsGood | inidirici.py:152-154 | writing a visited page under the name its URL maps to keeps `Good` |
| Traversal.QueueKeepsGood | inidirici.py:146 | queueing a resource task keeps `Good` |
| Traversal.CrawledKeepsGood | inidirici.py:93-157 | a crawl from a valid URL keeps the invariant `Good`: `visited` is the set of fetched URLs, each fetched once, valid and within the depth limit; every queued task is a resource download under its mapped path; every written page was visited and is written under the name its URL maps to |
| Traversal.DispatchKeepsGood | inidirici.py:127-150 | the dispatch loops keep `Good` |
| Traversal.StepKeepsGood | inidirici.py:129-150 | handling one element keeps `Good` |
| Traversal.CrawlFromScratch | inidirici.py:93-104 | from the empty state: `visited` is exactly the set of fetched URLs, each fetched once, at depths from the start depth to the limit |
| Traversal.SameResourceQueuedTwice | inidirici.py:144-146 | downloads add nothing to `visited`, so a resource referenced twice in a row is queued twice |
| Traversal.FollowKeepsAnchor | inidirici.py:149-150 | following an anchor leaves its value unchanged, and only `a` tags are followed |
| Traversal.DownloadLinkResolves | inidirici.py:141-148 | the rewritten attribute, read from the page's directory, reaches the path the task is queued under |
| Traversal.Crawler.Crawl | inidirici.py:93-157 | the new state is `Crawled` of the old state, and every task put is counted as unfinished |
| Traversal.Crawler.ScanTag | inidirici.py:128-150 | the inner loop over the elements for one tag-table entry leaves the page and state from which `Dispatch` continues with the next entry, as `Dispatch` from this entry would |
| Traversal.Crawler.HandleElement | inidirici.py:129-150 | the page and new state after one element are those of `Step`, and every task put is counted as unfinished |
| Traversal.Crawler.Download | inidirici.py:146-148 | the page and new state after a download are those of `Enqueue` |
| Mirror.Drain | inidirici.py:84-91 | draining never makes more `task_done` calls than there are tasks, nor revives a worker |
| Mirror.FirstRaise | inidirici.py:61 | a queue with a raising task has a first one |
| Mirror.DrainCompletes | inidirici.py:84-91 | every task is done exactly when the queue is empty, or some worker runs and no task raises; then the tasks are handled in queue order and no worker is lost |
| Mirror.RunOutcome | inidirici.py:245-270 | with a valid seed and no href that makes `urljoin` raise, the crawl keeps `Good`; the run finishes, rather than hanging in `join`, exactly when no task was queued or a worker started and no task raises; then every task was handled once, in order |
| Mirror.FinishedShutdown | inidirici.py:264-268 | in a finished run, the queue holds exactly `threads` signals when the shutdown starts, and every started worker is there to take one |
| Mirror.RunEndsInCrash | inidirici.py:267-270 | as written, a finished run ends every worker with the unpacking error |
| Mirror.RunCorrectedStops | inidirici.py:267-270 | with the corrected signal, a finished run ends every worker at `break` |
| Mirror.RunWith | inidirici.py:245-270 | the run stops at the seed check exactly when the seed URL is invalid; a finished run has at most one exit per started thread |
| Mirror.Mirror | inidirici.py:245-270 | the method's outcome is `RunWith` of the options, environment and variant |
| Mirror.DrainQueue | inidirici.py:255-264 | the sequential drain's tasks, remaining queue, surviving workers and `task_done` count are those of `Drain` |
| Mirror.PutSignals | inidirici.py:267-268 | exactly `n` signals are appended, each counted as unfinished |
| Mirror.StopWorkers | inidirici.py:269-270 | each remaining worker's exit is that of `Shutdown` on the queue |

## Left out

- HTTP (`get_page` and the streaming in `save_file`) is a parameter. A failed fetch is
  `None`, and a download reply is a request error or a reply with its length header.
  Timeouts, proxies, SSL, headers, cookies, user agents and `--retry` (which nothing
  reads) are not modelled.
- BeautifulSoup parsing and `prettify` are not modelled. A page is given as its
  elements in document order. `find_all(tag)` is "the elements with that name", and
  the written page is the rewritten element sequence. The soup is local to one call
  and never shared, so it is a local sequence value updated element by element, not a
  mutable tree.
- `urljoin` is an uninterpreted function and `urlparse` is the `Url` datatype. URLs
  are compared by their components, so the model does not see two spellings that
  parse alike (an upper-case scheme, say).
- Mirror.RunOutcome: `resolve` (`urljoin` and `urlparse` at inidirici.py:133-134) is
  total in the model, so it never raises. Python raises `ValueError` there for an href
  with an unbalanced IPv6 bracket (`http://[x`). That error leaves `main` at line 261
  with the started workers blocked in `get()`. They are not daemon threads, so the
  process never exits. `RunOutcome` and `Mirror.RunWith` describe only runs in which
  no href raises.
- Downloaded bytes, tqdm progress bars, `time.sleep(delay)` and logging are not
  modelled.
- `os.makedirs` (inidirici.py:39, 114, 142, 251) is not modelled. It is assumed to
  succeed, which includes the error an empty `--dir` raises at line 251.
- Errors opening or writing files are not modelled: a flattened name that is too long,
  say, or an interrupted stream that leaves a partial file.
- Threads run one after another in the model. The crawl runs first and then each
  started worker drains the queue in turn. Interleavings are not modelled.
  `Queue.join` becomes the check that no task is unfinished; when it fails the run is
  `Hung`.
- `Strings.Lower` lowercases ASCII only. Python's `str.lower` also folds other
  letters, which matters only for non-ASCII extensions.
- Paths.Abs: POSIX `normpath` keeps exactly two leading slashes. The model drops them
  like any other run of slashes.
- Paths.RelPath: Python raises `ValueError` for an empty path. The model requires a
  non-empty path, which the code always passes there: the resource path of a
  reference with an extension.
- Paths.RewrittenLinkResolves: this requires that no segment contains a backslash. A
  backslash in the working or output directory would be turned into `/` by line 148.
- `base_url`, `headers`, `timeout`, `verify_ssl` and `proxies` are passed through
  without being used by the core, and are not modelled.

## Findings

| source | as written | input that shows it | evidently intended | confidence | as-written member | corrected member |
|---|---|---|---|---|---|---|
| inidirici.py:249 | each include piece gets a dot prepended even when it already has one | `--include-types .jpg`, the form the help text at lines 187 and 212 shows, yields `["..jpg"]`, so every reference is skipped | pieces given with their dot are kept as they are | high, not executed | Classify.DottedIncludeSkipsAll | Classify.CorrectedIncludeAcceptsBothForms |
| inidirici.py:268 | the stop signal is a bare `None`, but the worker unpacks `url, save_path = …` before testing `url is None` | any run that reaches shutdown with at least one thread: `url, save_path = None` raises `TypeError` in every worker | a tuple `(None, None)`, so each worker leaves at `break` | high, not executed | Mirror.RunEndsInCrash | Mirror.RunCorrectedStops |
| inidirici.py:152 | the whole save path is sanitised again before opening (line 67 does the same for resources), so every `/`, including the one after the output directory, becomes `_` | page `/` of output directory `site` with `<img src="/a.png">`: files `site_index.html` and `site_a.png` in the working directory, and the link `a.png` reaches neither | open the file at the path it was mapped to, where the rewritten link points | high, not executed | Paths.FlattenedLinkMisses | Traversal.DownloadLinkResolves |
