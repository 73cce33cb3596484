# MediaWiki dump tools: stream parser and image downloader

A Dafny model of the core of a set of tools that walk a MediaWiki XML export
dump (export schema 0.8) line by line:

- `XmlStreamParser` in its Python 3 revision (`mwdumptools/streamparser.py`,
  module `StreamParser`) and in its older Python 2 revision
  (`mwtools/streamparser.py`, module `LegacyStreamParser`).
  - The schema check on the first line.
  - Collecting the site-info lines up to `</siteinfo>`.
  - `parse_site_info`, which builds the namespace table and reads the
    generator, base, case and site name.
  - The main loop. It cuts the rest of the stream into `<page>`…`</page>`
    blocks, hands each block to `handle_page`, ignores other top-level lines
    and stops at `</mediawiki>`.
  - The `line_no` counter and, in the Python 3 revision, the
    `pages_processed` counter.
- `ImageDownloader` (`mwdumptools/imagedownloader.py`,
  module `ImageDownloader`).
  - Its constructor defaults.
  - `get_hash` and `get_local_path`.
  - `handle_page`: the namespace filter, removing `File:` from the title, and
    building the upload URL and the local path.
  - The `get_image` requests it hands to its `WorkerThread`, together with
    the worker's `jobs_running` throttle.

## Modules

- `Common` (common.dfy) holds `Option` and `Attr`, an instance attribute that
  is either never assigned or holds a value.
- `Text` (text.dfy) holds Python's `in` on strings and `strip()`. There are
  two flavours of white space: Unicode for Python 3 `str`, and ASCII for
  Python 2 byte strings. It also holds `"\n".join`, `str.replace(pat, "")`
  and POSIX `os.path.join`.
- `ElementTree` (element_tree.dfy) holds the element datatype, `find`,
  `findall`, `get` and the truth value of an element (true when it has
  children).
- `DumpParser` (dump_parser.dfy) holds everything both revisions share:
  - The exceptions.
  - The constructor's schema options.
  - `parse_schema` and `parse_etree`.
  - The site-info block and the two read loops, as methods.
  - The namespace table.
  - The main loop as a sequence of top-level blocks and a function
    `Process` over them, with the lemmas about the counter and the handled
    pages.
- `StreamParser` and `LegacyStreamParser` each hold a `class XmlStreamParser`.
  - Its fields are the ones `execute` and `parse_site_info` update.
  - Its methods are `execute` split into the prelude, the main loop and one
    turn of the loop; `parse_site_info`; and its table-filling loop.
  - Each method is proved against the module's specification functions
    (`SiteInfoEffect`, `Prepare`, `Run`).
  - `LegacyStreamParser.RevisionsCompared` sets the two orders of
    `parse_site_info` side by side.
- `ImageDownloader` (image_downloader.dfy) holds the pure derivation of a
  request from a page, the `WorkerThread` class, and the downloader class.
  The downloader runs the Python 3 parser with its own `handle_page` and
  `parse_site_info` additions.

## How the model is set up

- **Foreign calls** are parameters.
  - `etree.fromstring` is `parse: string -> Option<Element>`. `None` means
    a syntax error.
  - The MD5 hex digest is `md5: string -> Digest`, where a digest is 32
    lower-case hex digits.
  - The `handle_page` hook is `handler: Element -> Option<Error>`, the
    exception it raises, if any.
  - The code an override of `parse_site_info` runs after the base method is
    `hook: SiteFields -> Option<Error>`.
- **The input stream** is the sequence of lines `readline()` returns. Past
  the end, `readline()` returns `""`, and the stream never becomes
  `closed`. So every loop of `execute` that still waits for a closing
  marker at that point runs for ever. The model reports that as the
  outcome `Incomplete`.
- **Exceptions** are values of type `Error`: the module's `ParseError` with
  its reason, the XML syntax error, and `IndexError`, `AttributeError`,
  `TypeError` and `UnboundLocalError`.
- **What a run returns.** A run ends in `Finished` (at `</mediawiki>`),
  `Incomplete` or `Raised(e)`. The model also returns the attributes it
  assigned, `line_no`, and the pages `handle_page` returned from without
  raising, in order.
- **Which hex digits `get_hash` returns** depends only on `md5(filename)`,
  since `GetHash` is a function of the file name alone. So equal file names
  give equal buckets by construction.

## Model

| member | source | states |
|---|---|---|
| Text.ContainsIff | mwdumptools/streamparser.py:74 | Python's `p in s` holds exactly when `p` occurs in `s` at some index |
| Text.TrimLeftSpec | mwdumptools/streamparser.py:122 | `lstrip()` leaves a suffix that starts with a non-white character and removes only white space |
| Text.TrimRightSpec | mwdumptools/streamparser.py:122 | `rstrip()` leaves a prefix that ends with a non-white character and removes only white space |
| Text.StripSlice | mwdumptools/streamparser.py:122 | `strip()` keeps one contiguous slice bordered by non-white characters, and all it drops is white space |
| Text.JoinLength | mwdumptools/streamparser.py:77 | the length of `"\n".join(lines)` is the total length of the lines plus one per pair of neighbours |
| Text.JoinBySingle | mwdumptools/streamparser.py:77 | joining a single line gives that line, with no separator |
| Text.JoinByAppend | mwdumptools/streamparser.py:77 | joining two non-empty lists of lines back to back is joining each and putting one separator between the two results |
| Text.RemoveAll | mwdumptools/imagedownloader.py:121 | `replace(pat, "")`: the result is never longer than the input |
| Text.RemoveAllLength | mwdumptools/imagedownloader.py:121 | the length `replace(pat, "")` removes is one pattern length per non-overlapping occurrence |
| Text.RemoveAllPrefix | mwdumptools/imagedownloader.py:121 | a leading occurrence of the pattern is dropped, and the rest is processed as if it stood alone |
| Text.Split | mwdumptools/imagedownloader.py:121 | the independent reference: cutting a string at each non-overlapping occurrence, left to right, gives at least one piece |
| Text.RemoveAllSplit | mwdumptools/imagedownloader.py:121 | cutting the string at the occurrences gives one more piece than there are occurrences, no piece contains the pattern, joining the pieces with the pattern rebuilds the string, and `replace(pat, "")` is exactly the pieces joined with nothing |
| Text.RemoveAllAbsent | mwdumptools/imagedownloader.py:121 | a string without the pattern comes back unchanged |
| Text.RemoveAllSinglePass | mwdumptools/imagedownloader.py:121 | `replace` makes a single left-to-right pass: `"FiFile:le:"` becomes `"File:"`, not `""` |
| ElementTree.Find | mwdumptools/streamparser.py:82 | `find(tag)` is the first child with that tag, and `None` exactly when no child has the tag |
| ElementTree.FindAll | mwdumptools/streamparser.py:86 | `findall(tag)` holds exactly the children with that tag |
| ElementTree.FilterAppend | mwdumptools/streamparser.py:86 | the children with the tag of two lists back to back are those of the first list followed by those of the second, so document order is kept |
| ElementTree.FilterSingle | mwdumptools/streamparser.py:86 | a single child is kept exactly when it has the tag |
| DumpParser.ConfigFrom | mwdumptools/streamparser.py:53-67 | a missing keyword argument takes its default (version `0.8`, location and schema built from the version, generator `MediaWiki 1.22wmf8`), and each given keyword sets its own field to the value given |
| DumpParser.AnyContains | mwdumptools/streamparser.py:113 | `any(p in line ...)` is true exactly when some line contains `p` |
| DumpParser.ParseSchema | mwdumptools/streamparser.py:103-116 | `Ok` exactly when some line contains the `<mediawiki xmlns=...` prefix built from location, schema and version; `Ok` always carries true; otherwise it raises `ParseError("Illegal schema")` |
| DumpParser.SchemaLineIsNotSiteInfoEnd | mwdumptools/streamparser.py:122-132 | a first line that passes the schema check is neither `""` nor `</siteinfo>`, so the site-info loop always reads on |
| DumpParser.EtreeTextSpec | mwdumptools/streamparser.py:72-76 | no lines raise `IndexError`; a first line without `<tag>` raises `ParseError("Expected: <tag>")`; otherwise the text is the lines joined unchanged, still starting with the first line and still holding the start tag (the `replace` is dropped) |
| DumpParser.ParseEtreeSpec | mwdumptools/streamparser.py:72-77 | an element exactly when the tag check passes and `fromstring` accepts `"\n".join(lines)`, which is the element; the tag check's exception passes through, and a refused text raises a syntax error |
| DumpParser.StripAll | mwdumptools/streamparser.py:140 | the stripped view has one line per input line |
| DumpParser.StripAllAt | mwdumptools/streamparser.py:140 | line `i` of the stripped view is input line `i` stripped |
| DumpParser.FirstMatch | mwdumptools/streamparser.py:144-147 | the first index at or after `from` whose stripped line is the marker, if any; `None` exactly when no such line exists |
| DumpParser.FirstMatchAt | mwdumptools/streamparser.py:144-147 | a marker line with no marker before it is the first match |
| DumpParser.SiteInfoBlock | mwdumptools/streamparser.py:129-132 | the collected lines are exactly the stripped lines after the schema line up to and including the first `</siteinfo>`, and no earlier one is `</siteinfo>`; `None` exactly when no later line is `</siteinfo>` |
| DumpParser.ReadSiteInfo | mwdumptools/streamparser.py:129-132 | the site-info loop returns exactly `SiteInfoBlock` of the stripped lines, and `None` where the source would wait for ever |
| DumpParser.ReadPage | mwdumptools/streamparser.py:142-147 | the page loop is closed exactly when a later line strips to `</page>`, and then collects `"<page>"` followed by the raw, unstripped lines up to and including the first such line |
| DumpParser.NextBlock | mwdumptools/streamparser.py:139-161 | the block at `pos` starts there, spans at least one line within the input, and an unclosed page runs to the end of the input |
| DumpParser.NextBlockShape | mwdumptools/streamparser.py:142-161 | every block is well formed: a page starts with stripped `<page>`, keeps its inner lines raw, ends on the first line that strips to `</page>`, and has none before that; an unclosed page has none at all; a stray line is neither `<page>` nor `</mediawiki>`; the last block is `</mediawiki>` |
| DumpParser.BlocksEmpty | mwdumptools/streamparser.py:139-140 | there are no blocks exactly when the input is exhausted |
| DumpParser.BlocksTile | mwdumptools/streamparser.py:139-161 | the blocks lie end to end from `pos` with no gap; the loop continues only after a page or a stray line, and the last block is `</mediawiki>` or ends at the end of input |
| DumpParser.BlocksWellFormed | mwdumptools/streamparser.py:142-161 | every block the main loop meets is well formed |
| DumpParser.StepBlock | mwdumptools/streamparser.py:140-161 | a turn that goes on moves `line_no` by exactly one, continues right after its block, and was a page or a stray line |
| DumpParser.ProcessStep | mwdumptools/streamparser.py:142-156 | an accepted page or stray line moves the counter once, appends its page if any, and the loop goes on |
| DumpParser.ProcessLast | mwdumptools/streamparser.py:157-159 | a last accepted block moves the counter once and finishes exactly when it is `</mediawiki>` |
| DumpParser.ProcessTurn | mwdumptools/streamparser.py:139-161 | the main loop at `pos` is one turn on the block there, followed, unless the turn stops the run, by the main loop after that block |
| DumpParser.ProcessAccepted | mwdumptools/streamparser.py:139-161 | when every page is accepted, `line_no` rises by exactly the number of blocks, each page block is handed to `handle_page` exactly once and in order, and the run finishes exactly when the last block is `</mediawiki>` |
| DumpParser.RaisedAtCons | mwdumptools/streamparser.py:148-149 | an accepted block in front of a run that raised at block `k` gives a run that raised at block `k + 1` |
| DumpParser.ProcessRaised | mwdumptools/streamparser.py:148-149 | a run that raised did so at a page that did not parse or whose `handle_page` raised; every earlier block was accepted, `line_no` counts the blocks up to it, and exactly the earlier pages were handled |
| DumpParser.ProcessMonotone | mwdumptools/streamparser.py:139-161 | whatever happens, `line_no` never goes down, rises by at most one per block and by at least one per handled page, and handled pages are only ever appended |
| DumpParser.TiledContinues | mwdumptools/streamparser.py:157-159 | in a tiling only the last block can be `</mediawiki>` or an unclosed page |
| DumpParser.ProcessNotRaised | mwdumptools/streamparser.py:148-149 | a run that did not raise accepted every block |
| DumpParser.MainLoopRun | mwdumptools/streamparser.py:139-161 | the main loop seen from its blocks: they tile the rest of the input and are well formed; `line_no` is monotone and bounded by the number of blocks; a run that did not raise counted every block once, handed every page block once in order, and finished exactly on a last `</mediawiki>` |
| DumpParser.MainStepEof | mwdumptools/streamparser.py:139-140 | at the end of the input the main loop waits for ever, with nothing changed |
| DumpParser.NamespaceTableKeys | mwdumptools/streamparser.py:85-87 | the table has an entry for exactly the keys of the `namespace` elements |
| DumpParser.NamespaceTableLast | mwdumptools/streamparser.py:85-87 | a later element with the same key overwrites an earlier one: each entry holds the text of the last element with its key |
| DumpParser.TextOfSpec | mwdumptools/streamparser.py:97-99 | `find(tag).text` raises `AttributeError` exactly when no child has the tag; otherwise it is the text of the first such child |
| DumpParser.NamespacesOf | mwdumptools/streamparser.py:82-84 | `namespaces` passes exactly when it exists and has children (`if not namespaces`); otherwise it raises `ParseError("No namespaces defined")` |
| DumpParser.GeneratorOf | mwdumptools/streamparser.py:88-91 | a missing `generator` raises `ParseError("No siteinfo generator")`, exactly then; otherwise the value is its text |
| DumpParser.GeneratorCheck | mwdumptools/streamparser.py:92-96 | the generator comparison raises exactly when the generator has no text (`str + None` is a `TypeError`); a different name is only logged |
| DumpParser.SiteNamesSpec | mwdumptools/streamparser.py:97-99 | the names step raises `AttributeError` exactly when `base`, `case` or `sitename` is missing; it never touches the table or the generator, sets all three names on success, and changes nothing when `base` is missing |
| DumpParser.LogTitle | mwdumptools/streamparser.py:164-165 | the base `handle_page` raises `AttributeError` exactly when the page has no `title`, and otherwise only logs |
| StreamParser.SiteInfoOutcomes | mwdumptools/streamparser.py:80-100 | `parse_site_info`: a tree that fails to parse or lacks namespaces raises before any attribute is set; past that check the table is filled; a missing generator raises `ParseError`, a generator without text `TypeError`; a normal end has assigned every attribute |
| StreamParser.GeneratorMismatchOnlyWarns | mwdumptools/streamparser.py:92-99 | a generator other than the expected one never raises by itself: the call ends normally or fails only on a missing name element |
| StreamParser.SiteInfoNamespaces | mwdumptools/streamparser.py:81-87 | once past the namespaces check, `_namespaces` has exactly the keys of the `namespace` children, each mapped to the text of the last child with that key |
| StreamParser.PrepareAfter | mwdumptools/streamparser.py:122-133 | a passing schema line and a complete site-info block lead to `parse_site_info` on exactly that block |
| StreamParser.PrepareSchemaFails | mwdumptools/streamparser.py:122-124 | a failing schema line stops the run with `ParseError("Illegal schema")` before anything is read or set |
| StreamParser.PrepareNoSiteInfoEnd | mwdumptools/streamparser.py:129-132 | input without `</siteinfo>` never gets past the site-info loop, and nothing is set |
| StreamParser.PrepareSiteInfoRaises | mwdumptools/streamparser.py:133 | an exception of `parse_site_info` stops the run, keeping what it had assigned so far |
| StreamParser.PrepareHookRaises | mwdumptools/streamparser.py:133 | an exception raised by an override after the base `parse_site_info` stops the run before the main loop |
| StreamParser.PrepareMain | mwdumptools/streamparser.py:122-139 | when everything before the main loop ends normally, the loop starts on the line after `</siteinfo>` |
| StreamParser.RunStoppedEarly | mwdumptools/streamparser.py:119-133 | a run stopped before the main loop counts no line, handles no page and does not finish |
| StreamParser.RunMainLoop | mwdumptools/streamparser.py:139-161 | a run past the site info behaves as `MainLoopRun` describes, on the stripped input, with the attributes `parse_site_info` left |
| StreamParser.RunAppendsPages | mwdumptools/streamparser.py:119-161 | a run only appends to the pages handled before it |
| StreamParser.XmlStreamParser.constructor | mwdumptools/streamparser.py:51-70 | options from the keyword arguments, both counters zero, no attribute assigned |
| StreamParser.XmlStreamParser.ParseSiteInfo | mwdumptools/streamparser.py:80-99 | the attributes and the exception are exactly those of `SiteInfoEffect`, and the counters are untouched |
| StreamParser.XmlStreamParser.FillNamespaces | mwdumptools/streamparser.py:85-87 | the loop leaves `_namespaces` equal to `NamespaceTable` of the `namespace` elements and changes nothing else |
| StreamParser.XmlStreamParser.AssignNames | mwdumptools/streamparser.py:97-99 | the three assignments have exactly the effect of `SiteNames` |
| StreamParser.XmlStreamParser.Execute | mwdumptools/streamparser.py:119-161 | the new attributes, `line_no`, handled pages and outcome are those of `Run`, and `pages_processed` rises by exactly the number of pages handled |
| StreamParser.XmlStreamParser.Prelude | mwdumptools/streamparser.py:119-133 | the steps before the main loop end as `Prepare` says, and the counters are untouched |
| StreamParser.XmlStreamParser.MainLoop | mwdumptools/streamparser.py:139-161 | the loop leaves `line_no`, handled pages and outcome as `Process` over the blocks says, the attributes unchanged, and `pages_processed` moved once per handled page |
| StreamParser.XmlStreamParser.Turn | mwdumptools/streamparser.py:140-161 | one iteration is exactly `StepBlock` on the block at the cursor: where the loop goes on, the new counter and pages, or the outcome that stops it |
| StreamParser.XmlStreamParser.PageTurn | mwdumptools/streamparser.py:142-156 | the `<page>` branch: read, parse, `handle_page`, then `pages_processed` once, as `StepBlock` says for that block |
| LegacyStreamParser.SiteInfoOutcomes | mwtools/streamparser.py:82-101 | this revision's `parse_site_info`: the checks as in the other revision, but a missing generator raises `ParseError` and a text-less one `TypeError`, both with `namespaces` still `{}`; the table is filled only after the generator check |
| LegacyStreamParser.RevisionsCompared | mwtools/streamparser.py:87-98 | both revisions raise the same exception; a normal end leaves the same attributes; a generator failure leaves this revision's table empty where the other is filled |
| LegacyStreamParser.PrepareAfter | mwtools/streamparser.py:124-133 | a passing schema line and a complete site-info block lead to `parse_site_info` on exactly that block |
| LegacyStreamParser.RunStoppedEarly | mwtools/streamparser.py:121-133 | a run stopped before the main loop counts no line, handles no page and does not finish |
| LegacyStreamParser.RunMainLoop | mwtools/streamparser.py:139-154 | the main loop on lines stripped of ASCII white space behaves as `MainLoopRun` describes |
| LegacyStreamParser.XmlStreamParser.constructor | mwtools/streamparser.py:54-72 | options from the keyword arguments, the counter zero, no attribute assigned |
| LegacyStreamParser.XmlStreamParser.ParseSiteInfo | mwtools/streamparser.py:82-101 | the attributes and the exception are exactly those of this revision's `SiteInfoEffect` |
| LegacyStreamParser.XmlStreamParser.FillNamespaces | mwtools/streamparser.py:97-98 | the loop fills the emptied table to `NamespaceTable` of the `namespace` elements and changes nothing else |
| LegacyStreamParser.XmlStreamParser.AssignNames | mwtools/streamparser.py:99-101 | the three assignments have exactly the effect of `SiteNames` |
| LegacyStreamParser.XmlStreamParser.Execute | mwtools/streamparser.py:121-154 | the new attributes, `line_no`, handled pages and outcome are those of this revision's `Run` |
| LegacyStreamParser.XmlStreamParser.Prelude | mwtools/streamparser.py:121-133 | the steps before the main loop end as `Prepare` says |
| LegacyStreamParser.XmlStreamParser.MainLoop | mwtools/streamparser.py:139-154 | the loop leaves `line_no`, handled pages and outcome as `Process` over the blocks says |
| LegacyStreamParser.XmlStreamParser.Turn | mwtools/streamparser.py:140-154 | one iteration is exactly `StepBlock` on the block at the cursor |
| LegacyStreamParser.XmlStreamParser.PageTurn | mwtools/streamparser.py:142-149 | the `<page>` branch: read, parse, `handle_page`, as `StepBlock` says for that block |
| ImageDownloader.GetHash | mwdumptools/imagedownloader.py:105-109 | `(c[0], c[0:2])` of the digest: lengths 1 and 2, the second starts with the first, all lower-case hex |
| ImageDownloader.LocalPathSegments | mwdumptools/imagedownloader.py:111-112 | with bucket names that have no leading or trailing `/` and a relative file name, the path is `h1/h2/fname` |
| ImageDownloader.LocalPathAbsolute | mwdumptools/imagedownloader.py:111-112 | a file name starting with `/` discards both buckets: the path is the file name |
| ImageDownloader.PageRequestSpec | mwdumptools/imagedownloader.py:114-124 | `handle_page` requests something only for pages whose `ns` text is the namespace; any other page with `ns` gives nothing, one without `ns` raises, a file page with usable title text gives the request for the title without `File:`, and a file page without one raises |
| ImageDownloader.RequestShape | mwdumptools/imagedownloader.py:122-124 | for a relative file name, URL and local path use the same buckets (first one and two digest digits) and file name, and the URL is the upload root followed by the local path, whatever `dlurl` was given |
| ImageDownloader.ExampleFileName | mwdumptools/imagedownloader.py:121 | `File:Example.png` gives the file name `Example.png` |
| ImageDownloader.ExampleFilePage | mwdumptools/imagedownloader.py:121-124 | the request for `Example.png`: path `h1/h2/Example.png`, URL under `http://upload.wikimedia.org/wikipedia/commons/` |
| ImageDownloader.FilePages | mwdumptools/imagedownloader.py:115 | exactly the pages of the namespace are kept |
| ImageDownloader.HandledPageRequest | mwdumptools/imagedownloader.py:114-131 | a page `handle_page` accepts gives one request for its file name if it is a file page, and none otherwise |
| ImageDownloader.FileRequests | mwdumptools/imagedownloader.py:121-131 | one request per file page, in order, for that page's file name |
| ImageDownloader.RequestsForFilePages | mwdumptools/imagedownloader.py:114-131 | over accepted pages, the requests are exactly one per file page, in page order, and no other page gives one |
| ImageDownloader.AsWrittenHandlesNoPage | mwdumptools/imagedownloader.py:100-103 | with the override as written, no run handles a page or finishes, and every run that gets past the base `parse_site_info` raises `AttributeError` |
| ImageDownloader.CorrectedHookIsTransparent | mwdumptools/imagedownloader.py:100-103 | with the override reading `_namespaces`, the run before the main loop is exactly that of the base parser |
| ImageDownloader.WorkerThread.constructor | mwdumptools/imagedownloader.py:64-67 | the pool size as given, no job counted, nothing submitted or finished, so the counter counts the outstanding jobs |
| ImageDownloader.WorkerThread.GetImage | mwdumptools/imagedownloader.py:53-76 | as written, a call blocks for ever exactly when the counter is already past the pool size; otherwise it submits the request, records the counter, and leaves the counter one higher; a counter that counts the outstanding jobs still does after the call |
| ImageDownloader.WorkerThread.JobDone | mwdumptools/imagedownloader.py:74 | a finished download is uncounted: one more job finished, the counter one lower, nothing else submitted |
| ImageDownloader.WorkerThread.SubmitAll | mwdumptools/imagedownloader.py:126-131 | as written, the calls for successive requests go through until `CallsBeforeBlock` of them have, the next one blocks, and the counter rises by one per call that went through |
| ImageDownloader.WorkerThread.SubmitAllIntended | mwdumptools/imagedownloader.py:53-76 | with finished downloads uncounted while a call waits, the counter still counts the outstanding jobs; every request is submitted in order, and as each is handed over at most one more job than the pool size is outstanding; only a negative size blocks, at the first request |
| ImageDownloader.CallsBeforeBlock | mwdumptools/imagedownloader.py:56-71 | at most `n` calls go through, fewer exactly when `n` is more than `processes - jobs + 1`, and then exactly that many (none if it is not positive) |
| ImageDownloader.AsWrittenTenthRequestBlocks | mwdumptools/imagedownloader.py:41 | a fresh worker of the default size 8 takes nine requests; the tenth blocks for ever |
| ImageDownloader.ImageDownloader.constructor | mwdumptools/imagedownloader.py:81-89 | namespace `"6"`, `DEFAULT_DOWNLOAD_PATH` and `OUTPUT_ROOT`, whatever was passed; the parser configured from the other keyword arguments; a worker of the given size |
| ImageDownloader.ImageDownloader.Execute | mwdumptools/imagedownloader.py:79-131 | the program with both faults corrected (the corrected override and the worker that uncounts finished jobs): the parser runs `Run` with the corrected override and `handle_page`, and `pages_processed` rises by the number of pages handled; the worker receives the requests of the handled pages, in order, unless its size is negative; it keeps counting the outstanding jobs, and as each request is handed over no more than one job above its size is outstanding |

## Left out

- Stream plumbing in the `Parser` base class (opening files, standard input
  and output, the unused output stream) is left out. The input is the
  sequence of lines `readline()` returns.
- The loop that runs for ever at the end of the input is the outcome
  `Incomplete`. The `line_no` it would go on counting is left at its value
  when the input ran out.
- Every log call is left out, along with the throughput report of the
  Python 3 main loop at `% 1000`. That report uses the clock and float
  division, and it subtracts the times in reverse order. It also divides
  `0` by `0.0`, raising `ZeroDivisionError`, when the clock has not moved
  by the time the first page is counted. It is
  `mwdumptools/streamparser.py:126` and `150-155`.
- The `print` of the namespace table in the Python 2 revision is left out
  because it is output only.
- The `resume` option is left out because it is only logged.
- `etree.fromstring` internals are left out because they are foreign
  calls. So are MD5 and the UTF-8 encoding of the file name: only the
  shape of the hex digest is modelled.
- The normalisation `os.path.abspath` applies to the working directory
  is left out. `OUTPUT_ROOT` is the working directory, given as a
  parameter, joined with `images`.
- `load_url`, `image_downloaded` and `image_error` are left out because
  they are network and file I/O.
- The `ThreadPoolExecutor`, its futures, callbacks and exceptions, and the
  one-second sleep are left out. Only the `jobs_running` counter of
  `WorkerThread` and the number of finished jobs are modelled, and a wait
  that never ends is the flag `blocked`. In `SubmitAllIntended` the
  one-second wait is modelled as outstanding jobs finishing, oldest first.
- `ImageDownloader.WorkerThread.SubmitAllIntended` blocks for a negative
  pool size, where `ThreadPoolExecutor` would already have raised
  `ValueError` in the constructor for any size that is not positive. That
  exception is not modelled.
- `ImageDownloader.ImageDownloader.Execute` hands the requests to the
  worker after the parse instead of from within each `handle_page` call.
  With finished jobs uncounted both orders submit the same requests. The
  one exception is a negative pool size: there the source blocks the
  parse at the first file page, and the model shows only that nothing was
  submitted.
- StreamParser.XmlStreamParser.Execute, LegacyStreamParser.XmlStreamParser.Execute,
  ImageDownloader.ImageDownloader.Execute: each models one call on a
  stream that has not been read yet. The read position is not a field, so
  a second call starts again at the first line, where the source would go
  on from where the first call stopped.
- `ImageDownloader` is modelled by composition, not inheritance. The
  downloader owns a Python 3 parser and runs its `execute` with its own
  `handle_page` and `parse_site_info` additions.
- `ImageDownloader.PageRequest`: in the missing-title branch the except
  clause calls `settings.logging.warning`. `settings` is not part of this
  model, so the model takes the call to return. The run then fails reading
  the unbound `title`, which the model reports as `UnboundLocalError`.
- The corrected `parse_site_info` override still calls `get` with the
  integer 6 on a table with string keys. It therefore always logs that
  the namespace is missing. Only that log call is affected, and it is
  left out.
- The module's unused constants (`GET_EXTENSIONS`, `CONVERT`, `MAX_X`,
  `MAX_Y`, `OUTPUT_SQL`) and the `__main__` blocks are left out.
- The as-written members keep three behaviours that raise or block. The
  `parse_site_info` override raises `AttributeError`
  (`SiteInfoHookAsWritten`, `AsWrittenHandlesNoPage`). `get_image` is
  counted twice and never uncounted, so the wait at
  `mwdumptools/imagedownloader.py:56` never ends once it is entered
  (`WorkerThread.SubmitAll`). A file page without a title raises
  `UnboundLocalError` (`PageRequest`).
- ImageDownloader.ImageDownloader.Execute runs the corrected program, not
  the one as written: it uses the corrected `parse_site_info` override and
  `WorkerThread.SubmitAllIntended`, with the `JobDone` steps the source
  lacks. The run as written is `Run` with `SiteInfoHookAsWritten`, which
  `AsWrittenHandlesNoPage` shows raises before any page, together with
  `WorkerThread.SubmitAll`, which blocks after `processes + 1` requests.

## Findings

| source | as written | input that shows it | evidently intended | confidence | as-written member | corrected member |
|---|---|---|---|---|---|---|
| mwdumptools/imagedownloader.py:100-103 | the override reads `self.namespaces`, which the Python 3 base class never assigns (it stores the table in `self._namespaces`) | any dump whose schema line and site info are valid: `parse_site_info` raises `AttributeError` before the first page, so no image is ever requested | read `self._namespaces` and only log a missing file namespace | high; not executed | ImageDownloader.AsWrittenHandlesNoPage | ImageDownloader.CorrectedHookIsTransparent |
| mwdumptools/imagedownloader.py:53-76 | `get_image` counts each job in `jobs_running` (line 71), but nothing uncounts it when its download finishes, so each call leaves the counter one higher and the wait at line 56 never ends once it is passed; as written this stall is hidden by the first finding, which stops every run before its first page | a fresh worker of size `MAX_THREADS` = 8 and ten file pages: the tenth `get_image` call waits for ever | uncount a job when its download finishes (the done-callback of line 74), so the counter is the number of outstanding jobs and the wait holds it to at most one above the pool size, as the comment at line 55 says | high; not executed | ImageDownloader.AsWrittenTenthRequestBlocks | ImageDownloader.WorkerThread.SubmitAllIntended |
