/** `ImageDownloader` (mwdumptools/imagedownloader.py): a subclass of the
    Python 3 `XmlStreamParser` whose `handle_page` keeps the pages of the
    file namespace, strips `File:` from the title, buckets the file name by
    its MD5 digest and asks its `WorkerThread` to fetch the upload URL into
    the bucketed local path. The subclass is modelled by composition: the
    downloader owns a parser and runs its `execute` with its own
    `handle_page` and `parse_site_info` additions. */
module ImageDownloader {
  import opened Common
  import opened Text
  import opened ElementTree
  import opened DumpParser
  import opened StreamParser

  /** `DEFAULT_DOWNLOAD_PATH`, the `str.format` template of the upload URL. */
  const DefaultDownloadPath := "http://upload.wikimedia.org/wikipedia/commons/{h1:s}/{h2:s}/{fname:s}"

  /** The literal text of the template before its first field. */
  const UploadRoot := "http://upload.wikimedia.org/wikipedia/commons/"

  /** `MAX_THREADS`, the default size of the worker pool. */
  const MaxThreads := 8

  /** `OUTPUT_ROOT`: `os.path.abspath("./images")`, taken in the working
      directory `cwd` the module is imported from. */
  function OutputRoot(cwd: string): string
  {
    PathJoin(cwd, "images")
  }

  predicate IsLowerHex(c: char)
  {
    '0' <= c <= '9' || 'a' <= c <= 'f'
  }

  /** What `md5(...).hexdigest()` returns: 32 lower-case hexadecimal digits.
      The digest itself is a parameter of the model. */
  type Digest = d: string | |d| == 32 && forall i :: 0 <= i < |d| ==> IsLowerHex(d[i])
    witness "00000000000000000000000000000000"

  /** `get_hash`: the first hex digit and the first two hex digits of the
      digest of `filename`. */
  function GetHash(md5: string -> Digest, filename: string): (r: (string, string))
    ensures var d := md5(filename);
      && |r.0| == 1 && |r.1| == 2
      && r.0 == d[..1] && r.1 == d[..2] && r.1[0] == r.0[0]
      && (forall i :: 0 <= i < |r.1| ==> IsLowerHex(r.1[i]))
  {
    var c := md5(filename);
    ([c[0]], c[0..2])
  }

  /** `get_local_path`: `os.path.join(h1, h2, fname)`. */
  function LocalPath(h1: string, h2: string, fname: string): string
  {
    PathJoin(PathJoin(h1, h2), fname)
  }

  /** With bucket names that neither start nor end with `/` and a relative
      file name, the local path is `h1/h2/fname`. */
  lemma LocalPathSegments(h1: string, h2: string, fname: string)
    requires h1 != [] && h1[|h1| - 1] != '/'
    requires h2 != [] && h2[0] != '/' && h2[|h2| - 1] != '/'
    requires fname == [] || fname[0] != '/'
    ensures LocalPath(h1, h2, fname) == h1 + "/" + h2 + "/" + fname
  {
    var p := h1 + "/" + h2;
    assert PathJoin(h1, h2) == p;
    assert p[|p| - 1] == h2[|h2| - 1];
  }

  /** A file name that starts with `/` replaces both bucket names: the
      local path is the file name itself. */
  lemma LocalPathAbsolute(h1: string, h2: string, fname: string)
    requires fname != [] && fname[0] == '/'
    ensures LocalPath(h1, h2, fname) == fname
  {
  }

  /** `DEFAULT_DOWNLOAD_PATH.format(h1=h1, h2=h2, fname=fname)`. */
  function UrlFor(h1: string, h2: string, fname: string): string
  {
    UploadRoot + h1 + "/" + h2 + "/" + fname
  }

  /** One call of `worker.get_image`: the URL to fetch and the path,
      relative to the output directory, to store it at. */
  datatype Request = Request(url: string, localPath: string)

  /** The request for a file called `fname`: URL and local path are built
      from the same buckets and the same name. */
  function RequestFor(md5: string -> Digest, fname: string): Request
  {
    var (h1, h2) := GetHash(md5, fname);
    Request(UrlFor(h1, h2, fname), LocalPath(h1, h2, fname))
  }

  /** `page.find("ns").text == self.namespace`. */
  predicate InNamespace(namespace: string, page: Element)
  {
    Find(page, "ns").Some? && Find(page, "ns").value.text == Some(namespace)
  }

  /** `handle_page`: the request it submits, if any, or the exception it
      raises. A page without `ns` raises `AttributeError`; a page of another
      namespace is passed over; a file page without `title` reaches
      `title.replace` with `title` unbound, and one whose title has no text
      calls `replace` on `None`. Otherwise the file name is the title with
      every `File:` removed. */
  function PageRequest(md5: string -> Digest, namespace: string, page: Element): Result<Option<Request>>
  {
    match Find(page, "ns")
    case None => Err(AttributeError)
    case Some(ns) =>
      if ns.text != Some(namespace) then Ok(None)
      else
        match Find(page, "title")
        case None => Err(UnboundLocalError)
        case Some(t) =>
          match t.text
          case None => Err(AttributeError)
          case Some(title) => Ok(Some(RequestFor(md5, RemoveAll(title, "File:"))))
  }

  /** Which pages `handle_page` acts on: exactly those of the namespace, and
      for them it raises or submits one request for the title without
      `File:`; every other page with an `ns` child is passed over. */
  lemma PageRequestSpec(md5: string -> Digest, namespace: string, page: Element)
    ensures var r := PageRequest(md5, namespace, page);
      && (r.Ok? && r.value.Some? ==> InNamespace(namespace, page))
      && (Find(page, "ns").Some? && !InNamespace(namespace, page) ==> r == Ok(None))
      && (Find(page, "ns").None? ==> r == Err(AttributeError))
      && (InNamespace(namespace, page) && Find(page, "title").Some? && Find(page, "title").value.text.Some? ==>
            r == Ok(Some(RequestFor(md5, RemoveAll(Find(page, "title").value.text.value, "File:")))))
      && (InNamespace(namespace, page) && (Find(page, "title").None? || Find(page, "title").value.text.None?) ==>
            r.Err?)
  {
  }

  /** A request's URL and local path share their buckets and file name: the
      URL is the upload root followed by the local path when the file name
      is relative, and the buckets are the first one and two digits of the
      file name's digest. */
  lemma RequestShape(md5: string -> Digest, fname: string)
    requires fname == [] || fname[0] != '/'
    ensures var d := md5(fname);
      var r := RequestFor(md5, fname);
      && r.localPath == d[..1] + "/" + d[..2] + "/" + fname
      && r.url == UploadRoot + r.localPath
  {
    var (h1, h2) := GetHash(md5, fname);
    assert IsLowerHex(h1[0]) && IsLowerHex(h2[1]);
    LocalPathSegments(h1, h2, fname);
  }

  /** `replace("File:", "")` on `File:Example.png` leaves `Example.png`. */
  lemma ExampleFileName()
    ensures RemoveAll("File:Example.png", "File:") == "Example.png"
  {
    var s, pat := "File:Example.png", "File:";
    assert StartsWith(s, pat);
    assert s[|pat|..] == "Example.png";
    MissingFirstChar("Example.png", pat);
    RemoveAllAbsent("Example.png", pat);
  }

  /** An example: the file `Example.png` (the page `File:Example.png`, by
      `ExampleFileName`) is stored at `h1/h2/Example.png` and fetched from
      the upload root plus that path. */
  lemma ExampleFilePage(md5: string -> Digest)
    ensures var d := md5("Example.png");
      var r := RequestFor(md5, "Example.png");
      && r.localPath == d[..1] + "/" + d[..2] + "/Example.png"
      && r.url == "http://upload.wikimedia.org/wikipedia/commons/" + d[..1] + "/" + d[..2] + "/Example.png"
  {
    RequestShape(md5, "Example.png");
  }

  /** `handle_page` as the parser's hook: the exception it raises, if any. */
  function PageError(md5: string -> Digest, namespace: string, page: Element): Option<Error>
  {
    match PageRequest(md5, namespace, page)
    case Err(e) => Some(e)
    case Ok(_) => None
  }

  /** The request `handle_page` submits for `page`, as a sequence of at
      most one. */
  function RequestOf(md5: string -> Digest, namespace: string, page: Element): seq<Request>
  {
    match PageRequest(md5, namespace, page)
    case Ok(Some(r)) => [r]
    case _ => []
  }

  /** The requests submitted for a sequence of handled pages, in order. */
  function RequestsFor(md5: string -> Digest, namespace: string, pages: seq<Element>): seq<Request>
  {
    if pages == [] then [] else RequestOf(md5, namespace, pages[0]) + RequestsFor(md5, namespace, pages[1..])
  }

  /** The pages of the namespace among `pages`, in order. */
  function FilePages(namespace: string, pages: seq<Element>): (r: seq<Element>)
    ensures forall p :: p in r <==> p in pages && InNamespace(namespace, p)
  {
    if pages == [] then []
    else (if InNamespace(namespace, pages[0]) then [pages[0]] else []) + FilePages(namespace, pages[1..])
  }

  /** The title of a file page without every `File:`. */
  function FileName(page: Element): string
  {
    match Find(page, "title")
    case Some(Element(_, _, Some(title), _)) => RemoveAll(title, "File:")
    case _ => ""
  }

  /** A page `handle_page` accepted gives one request for its file name
      when it is in the namespace, and none otherwise. */
  lemma HandledPageRequest(md5: string -> Digest, namespace: string, page: Element)
    requires PageError(md5, namespace, page).None?
    ensures RequestOf(md5, namespace, page) == if InNamespace(namespace, page) then [RequestFor(md5, FileName(page))] else []
  {
  }

  /** One request per file page, for its file name, in order. */
  function FileRequests(md5: string -> Digest, files: seq<Element>): (r: seq<Request>)
    ensures |r| == |files|
    ensures forall i :: 0 <= i < |r| ==> r[i] == RequestFor(md5, FileName(files[i]))
  {
    if files == [] then [] else [RequestFor(md5, FileName(files[0]))] + FileRequests(md5, files[1..])
  }

  /** Each handled page of the namespace gives exactly one request, in
      page order, for its title without `File:`; no other page gives one. */
  lemma {:induction false} RequestsForFilePages(md5: string -> Digest, namespace: string, pages: seq<Element>)
    requires forall i :: 0 <= i < |pages| ==> PageError(md5, namespace, pages[i]).None?
    ensures RequestsFor(md5, namespace, pages) == FileRequests(md5, FilePages(namespace, pages))
  {
    if pages != [] {
      HandledPageRequest(md5, namespace, pages[0]);
      RequestsForFilePages(md5, namespace, pages[1..]);
    }
  }

  /** The override of `parse_site_info` as written, run after the base
      call: it reads `self.namespaces`, an attribute this revision never
      assigns (the base stores the table in `self._namespaces`), so it
      always raises `AttributeError`. */
  function SiteInfoHookAsWritten(fs: SiteFields): Option<Error>
  {
    Some(AttributeError)
  }

  /** The override as evidently intended, reading `self._namespaces`. Its
      lookup uses the integer key 6 while the table's keys are strings (or
      `None`), so it always misses and only logs; it raises only if the
      table was never assigned. */
  function SiteInfoHookCorrected(fs: SiteFields): Option<Error>
  {
    if fs.namespaces.Unset? then Some(AttributeError) else None
  }

  /** As written, no run of the downloader ever handles a page or finishes:
      the override stops every run that survives the base `parse_site_info`
      with `AttributeError`, before the main loop starts. */
  lemma AsWrittenHandlesNoPage(c: Config, parse: string -> Option<Element>, handler: Element -> Option<Error>,
                               input: seq<string>, s: SiteFields, lineNo: int, handled: seq<Element>)
    ensures var r := Run(c, parse, SiteInfoHookAsWritten, handler, input, s, lineNo, handled);
      && r.trace.handled == handled && r.trace.lineNo == lineNo && r.trace.outcome != Finished
      && (ParseSchema(c, [Strip(LineAt(input, 0), Unicode)]).Ok? &&
          SiteInfoBlock(StripAll(input, Unicode)).Some? &&
          SiteInfoEffect(c, parse, SiteInfoBlock(StripAll(input, Unicode)).value, s).error.None? ==>
            r.trace.outcome == Raised(AttributeError))
  {
    var st := Prepare(c, parse, SiteInfoHookAsWritten, input, s);
    match ParseSchema(c, [Strip(LineAt(input, 0), Unicode)])
    case Err(_) =>
    case Ok(_) =>
      match SiteInfoBlock(StripAll(input, Unicode))
      case None =>
      case Some(lines) => PrepareAfter(c, parse, SiteInfoHookAsWritten, input, s, lines);
    assert st.Stopped?;
    RunStoppedEarly(c, parse, SiteInfoHookAsWritten, handler, input, s, lineNo, handled, st.fields, st.outcome);
  }

  /** The corrected override changes nothing: a run with it is the run of
      the base parser, whose `parse_site_info` always assigns the table
      before it can end normally. */
  lemma CorrectedHookIsTransparent(c: Config, parse: string -> Option<Element>, input: seq<string>, s: SiteFields)
    ensures Prepare(c, parse, SiteInfoHookCorrected, input, s) == Prepare(c, parse, NoOverride, input, s)
  {
    match ParseSchema(c, [Strip(LineAt(input, 0), Unicode)])
    case Err(_) =>
    case Ok(_) =>
      match SiteInfoBlock(StripAll(input, Unicode))
      case None =>
      case Some(lines) =>
        PrepareAfter(c, parse, SiteInfoHookCorrected, input, s, lines);
        PrepareAfter(c, parse, NoOverride, input, s, lines);
        SiteInfoOutcomes(c, parse, lines, s);
  }

  /** The worker pool's front end: its size, the `jobs_running` counter the
      `job` decorator throttles on, the requests handed to the thread pool
      so far, and how many of them have finished downloading. The ghost
      `running` records the counter as each job was handed over. */
  class WorkerThread {
    const processes: int
    var jobsRunning: int
    var submitted: seq<Request>
    var completed: nat
    ghost var running: seq<int>

    /** The counter counts the jobs handed to the pool that have not
        finished yet, and each submitted job has its counter recorded. */
    ghost predicate Counted()
      reads this
    {
      completed <= |submitted| && jobsRunning == |submitted| - completed && |running| == |submitted|
    }

    constructor (processes: int)
      ensures this.processes == processes && jobsRunning == 0 && submitted == [] && completed == 0
      ensures running == [] && Counted()
    {
      this.processes := processes;
      jobsRunning := 0;
      submitted := [];
      completed := 0;
      running := [];
    }

    /** `get_image` under the `job` decorator: the decorator waits while more
        jobs than `processes` run, then counts the job, and `get_image`
        counts it a second time before the decorator uncounts it once, so
        the job stays counted after the call. As written nothing ever
        uncounts it, so once the counter exceeds `processes` the wait never
        ends (`blocked`). A counter that counts the outstanding jobs still
        does so after the call. */
    method GetImage(r: Request) returns (blocked: bool)
      modifies this
      ensures blocked <==> old(jobsRunning) > processes
      ensures completed == old(completed)
      ensures old(Counted()) ==> Counted()
      ensures blocked ==> jobsRunning == old(jobsRunning) && submitted == old(submitted) && running == old(running)
      ensures !blocked ==> jobsRunning == old(jobsRunning) + 1 && submitted == old(submitted) + [r]
      ensures !blocked ==> running == old(running) + [jobsRunning]
    {
      if jobsRunning > processes {
        return true;
      }
      jobsRunning := jobsRunning + 1;
      jobsRunning := jobsRunning + 1;
      submitted := submitted + [r];
      running := running + [jobsRunning - 1];
      jobsRunning := jobsRunning - 1;
      return false;
    }

    /** The step the source lacks: the pool reports a finished download and
        the job is uncounted, as the decorator's throttle evidently expects. */
    method JobDone()
      requires completed < |submitted|
      modifies this
      ensures completed == old(completed) + 1 && jobsRunning == old(jobsRunning) - 1
      ensures submitted == old(submitted) && running == old(running)
    {
      completed := completed + 1;
      jobsRunning := jobsRunning - 1;
    }

    /** One `get_image` call per request, in order, as `handle_page` makes
        them, until a call blocks. As written, every call that returns
        leaves one more job counted, so the calls go through while the
        counter has not passed `processes` and the next one blocks for
        ever: a fresh worker takes `processes + 1` requests. */
    method SubmitAll(rs: seq<Request>) returns (blocked: bool)
      modifies this
      ensures var k := CallsBeforeBlock(processes, old(jobsRunning), |rs|);
        && blocked == (k < |rs|)
        && submitted == old(submitted) + rs[..k]
        && jobsRunning == old(jobsRunning) + k
        && completed == old(completed)
    {
      var i := 0;
      blocked := false;
      while i < |rs|
        invariant 0 <= i <= |rs| && i <= CallsBeforeBlock(processes, old(jobsRunning), |rs|)
        invariant jobsRunning == old(jobsRunning) + i && submitted == old(submitted) + rs[..i]
        invariant completed == old(completed)
        invariant !blocked
      {
        blocked := GetImage(rs[i]);
        if blocked {
          return;
        }
        assert rs[..i + 1] == rs[..i] + [rs[i]];
        i := i + 1;
      }
      assert rs[..|rs|] == rs;
    }

    /** The same calls with finished downloads uncounted: while a call
        waits, outstanding jobs finish, oldest first (which job finishes
        does not matter to the counter). Every request is then handed to the
        pool in order, and as each one is handed over no more than
        `processes + 1` jobs are outstanding; only a negative size, never met
        by any count of jobs, makes the first call wait for ever. */
    method SubmitAllIntended(rs: seq<Request>) returns (blocked: bool)
      requires Counted()
      modifies this
      ensures Counted() && completed >= old(completed)
      ensures blocked <==> rs != [] && processes < 0
      ensures submitted == old(submitted) + (if blocked then [] else rs)
      ensures rs != [] && !blocked ==> jobsRunning <= processes + 1
      ensures old(running) <= running
      ensures forall i :: |old(submitted)| <= i < |submitted| ==> running[i] <= processes + 1
    {
      if rs != [] && processes < 0 {
        while completed < |submitted|
          invariant Counted() && completed >= old(completed) && submitted == old(submitted)
          invariant running == old(running)
          decreases |submitted| - completed
        {
          JobDone();
        }
        blocked := GetImage(rs[0]);
        return;
      }
      var i := 0;
      blocked := false;
      while i < |rs|
        invariant 0 <= i <= |rs|
        invariant Counted() && completed >= old(completed)
        invariant submitted == old(submitted) + rs[..i]
        invariant i > 0 ==> jobsRunning <= processes + 1
        invariant rs == [] || processes >= 0
        invariant !blocked
        invariant old(running) <= running
        invariant forall j :: |old(submitted)| <= j < |submitted| ==> running[j] <= processes + 1
      {
        while jobsRunning > processes
          invariant Counted() && completed >= old(completed)
          invariant submitted == old(submitted) + rs[..i]
          invariant old(running) <= running
          invariant forall j :: |old(submitted)| <= j < |submitted| ==> running[j] <= processes + 1
          decreases jobsRunning
        {
          JobDone();
        }
        blocked := GetImage(rs[i]);
        assert rs[..i + 1] == rs[..i] + [rs[i]];
        i := i + 1;
      }
      assert rs[..|rs|] == rs;
    }
  }

  /** How many of `n` calls a worker of size `processes` whose counter
      stands at `jobs` completes, as written, before one blocks: the calls
      go through while the counter has not passed `processes`. */
  function CallsBeforeBlock(processes: int, jobs: int, n: nat): (k: nat)
    ensures k <= n
    ensures k < n <==> n > 0 && n > processes - jobs + 1
    ensures k < n ==> k == if processes - jobs + 1 <= 0 then 0 else processes - jobs + 1
  {
    var room := processes - jobs + 1;
    if room <= 0 then 0 else if n <= room then n else room
  }

  /** With the default `MAX_THREADS` the tenth file page blocks a fresh
      worker for ever: only nine requests are ever submitted. */
  lemma AsWrittenTenthRequestBlocks(n: nat)
    requires n >= 10
    ensures CallsBeforeBlock(MaxThreads, 0, n) == 9 < n
  {
  }

  /** The downloader: its parser, the namespace, URL template and output
      directory it keeps whatever it was given, the pool size, and its
      worker. */
  class ImageDownloader {
    const parser: XmlStreamParser
    const namespace: string
    const dlurl: string
    const outputDir: string
    const maxProcesses: int
    const worker: WorkerThread

    /** `__init__`: `namespace`, `dlurl` and `output_dir` are ignored in
        favour of `"6"`, `DEFAULT_DOWNLOAD_PATH` and `OUTPUT_ROOT` (taken in
        `cwd`); the remaining keyword arguments configure the parser. */
    constructor (input: seq<string>, kwargs: map<string, string>, namespace: int, dlurl: string,
                 outputDir: string, processes: int, cwd: string)
      ensures this.namespace == "6" && this.dlurl == DefaultDownloadPath && this.outputDir == OutputRoot(cwd)
      ensures maxProcesses == processes
      ensures fresh(parser) && parser.input == input && parser.config == ConfigFrom(kwargs)
      ensures parser.lineNo == 0 && parser.pagesProcessed == 0 && parser.pagesHandled == []
      ensures parser.Fields() == SiteFields(Unset, Unset, Unset, Unset, Unset)
      ensures fresh(worker) && worker.processes == processes && worker.jobsRunning == 0 && worker.submitted == []
      ensures worker.completed == 0 && worker.running == [] && worker.Counted()
    {
      this.namespace := "6";
      this.dlurl := DefaultDownloadPath;
      this.outputDir := OutputRoot(cwd);
      parser := new XmlStreamParser(input, kwargs);
      maxProcesses := processes;
      worker := new WorkerThread(processes);
    }

    /** `execute` of the downloader: the parser's run with the corrected
        override and with `handle_page` as the page hook; the requests of
        the pages it handled go, in order, to the worker with finished
        downloads uncounted, which takes them all, with at most one more
        outstanding than its size as each is handed over, unless that size
        is negative. This is the program with both of its faults corrected:
        the run as written is `Run` with `SiteInfoHookAsWritten`
        (`AsWrittenHandlesNoPage`) and the worker as written is
        `SubmitAll`. */
    method Execute(parse: string -> Option<Element>, md5: string -> Digest) returns (outcome: Outcome)
      requires worker.Counted()
      modifies parser, worker
      ensures var r := Run(parser.config, parse, SiteInfoHookCorrected, page => PageError(md5, namespace, page),
                           parser.input, old(parser.Fields()), old(parser.lineNo), old(parser.pagesHandled));
        && parser.Fields() == r.fields && parser.lineNo == r.trace.lineNo
        && parser.pagesHandled == r.trace.handled && outcome == r.trace.outcome
      ensures parser.pagesProcessed == old(parser.pagesProcessed) + |parser.pagesHandled| - |old(parser.pagesHandled)|
      ensures old(parser.pagesHandled) <= parser.pagesHandled
      ensures worker.Counted() && worker.completed >= old(worker.completed)
      ensures var rs := RequestsFor(md5, namespace, parser.pagesHandled[|old(parser.pagesHandled)|..]);
        && worker.submitted == old(worker.submitted) + (if rs != [] && worker.processes < 0 then [] else rs)
        && (rs != [] && worker.processes >= 0 ==> worker.jobsRunning <= worker.processes + 1)
      ensures old(worker.running) <= worker.running
      ensures forall i :: |old(worker.submitted)| <= i < |worker.submitted| ==> worker.running[i] <= worker.processes + 1
    {
      ghost var s, n := parser.Fields(), parser.lineNo;
      var h := parser.pagesHandled;
      var handler := page => PageError(md5, namespace, page);
      outcome := parser.Execute(parse, SiteInfoHookCorrected, handler);
      RunAppendsPages(parser.config, parse, SiteInfoHookCorrected, handler, parser.input, s, n, h);
      var rs := RequestsFor(md5, namespace, parser.pagesHandled[|h|..]);
      var blocked := worker.SubmitAllIntended(rs);
    }
  }
}
