/** The Python 3 revision of `XmlStreamParser` (mwdumptools/streamparser.py):
    lines are stripped of Unicode white space, `parse_site_info` fills the
    namespace table before it looks at the generator, and the main loop
    counts handled pages in `pages_processed`. */
module StreamParser {
  import opened Common
  import opened Text
  import opened ElementTree
  import opened DumpParser

  /** `parse_site_info` of this revision, from the attributes before the
      call to the attributes after it and the exception it raised, if any. */
  function SiteInfoEffect(c: Config, parse: string -> Option<Element>, lines: seq<string>, s: SiteFields): SiteStep
  {
    match ParseEtree(parse, lines, "siteinfo")
    case Err(e) => SiteStep(s, Some(e))
    case Ok(si) =>
      match NamespacesOf(si)
      case Err(e) => SiteStep(s, Some(e))
      case Ok(ns) =>
        var s1 := s.(namespaces := Set(NamespaceTable(FindAll(ns, "namespace"))));
        match GeneratorOf(si)
        case Err(e) => SiteStep(s1, Some(e))
        case Ok(g) =>
          var s2 := s1.(generator := Set(g));
          match GeneratorCheck(c, g)
          case Some(e) => SiteStep(s2, Some(e))
          case None => SiteNames(si, s2)
  }

  /** How `parse_site_info` ends: a tree that does not parse or lacks
      namespaces raises before any attribute is set; otherwise the namespace
      table is filled, a missing generator raises `ParseError`, a generator
      without text raises `TypeError`, and a call that ends normally has set
      every attribute. */
  lemma SiteInfoOutcomes(c: Config, parse: string -> Option<Element>, lines: seq<string>, s: SiteFields)
    ensures var r := SiteInfoEffect(c, parse, lines, s);
      var tree := ParseEtree(parse, lines, "siteinfo");
      && (tree.Err? ==> r == SiteStep(s, Some(tree.error)))
      && (tree.Ok? && NamespacesOf(tree.value).Err? ==> r == SiteStep(s, Some(ParseError(NoNamespaces))))
      && (tree.Ok? && NamespacesOf(tree.value).Ok? ==>
            && r.fields.namespaces == Set(NamespaceTable(FindAll(NamespacesOf(tree.value).value, "namespace")))
            && (r.error == Some(ParseError(NoGenerator)) <==> Find(tree.value, "generator").None?)
            && (Find(tree.value, "generator").None? ==> r.fields.generator == s.generator)
            && (Find(tree.value, "generator").Some? ==>
                  && r.fields.generator == Set(Find(tree.value, "generator").value.text)
                  && (r.error == Some(TypeError) <==> Find(tree.value, "generator").value.text.None?)))
      && (r.error.None? ==>
            && r.fields.namespaces.Set? && r.fields.generator.Set?
            && r.fields.base.Set? && r.fields.caseRule.Set? && r.fields.sitename.Set?)
  {
    var tree := ParseEtree(parse, lines, "siteinfo");
    if tree.Ok? {
      SiteNamesSpec(tree.value, s);
    }
  }

  /** A generator other than the expected one is only logged: the call then
      ends normally or raises only for a missing `base`, `case` or
      `sitename`. */
  lemma GeneratorMismatchOnlyWarns(c: Config, parse: string -> Option<Element>, lines: seq<string>, s: SiteFields)
    requires ParseEtree(parse, lines, "siteinfo").Ok?
    requires var si := ParseEtree(parse, lines, "siteinfo").value;
      NamespacesOf(si).Ok? && GeneratorOf(si).Ok? && GeneratorWarning(c, GeneratorOf(si).value)
    ensures var r := SiteInfoEffect(c, parse, lines, s);
      r.error.None? || r.error == Some(AttributeError)
  {
  }

  /** The namespace table once `parse_site_info` got past the namespaces
      check (whatever happens after it): an entry for exactly the keys of
      the `namespace` children, each holding the text of the last child
      with that key. */
  lemma SiteInfoNamespaces(c: Config, parse: string -> Option<Element>, lines: seq<string>, s: SiteFields,
                           si: Element, ns: Element)
    requires ParseEtree(parse, lines, "siteinfo") == Ok(si) && NamespacesOf(si) == Ok(ns)
    ensures var elems := FindAll(ns, "namespace");
      var table := SiteInfoEffect(c, parse, lines, s).fields.namespaces;
      && table.Set?
      && (forall k :: k in table.value <==> exists i :: 0 <= i < |elems| && KeyOf(elems[i]) == k)
      && (forall i :: 0 <= i < |elems| && LastWithKey(elems, i) ==> table.value[KeyOf(elems[i])] == elems[i].text)
  {
    SiteInfoOutcomes(c, parse, lines, s);
    var elems := FindAll(ns, "namespace");
    NamespaceTableKeys(elems);
    forall i | 0 <= i < |elems| && LastWithKey(elems, i)
      ensures NamespaceTable(elems)[KeyOf(elems[i])] == elems[i].text
    {
      NamespaceTableLast(elems, i);
    }
  }

  /** The part of `execute` before the main loop: the schema check on the
      stripped first line, the site-info lines, `parse_site_info`, and then
      `hook`, the code an override of `parse_site_info` runs after it. */
  function Prepare(c: Config, parse: string -> Option<Element>, hook: SiteFields -> Option<Error>,
                   input: seq<string>, s: SiteFields): Stage
  {
    match ParseSchema(c, [Strip(LineAt(input, 0), Unicode)])
    case Err(e) => Stopped(s, Raised(e))
    case Ok(_) =>
      match SiteInfoBlock(StripAll(input, Unicode))
      case None => Stopped(s, Incomplete)
      case Some(lines) => AfterSiteInfo(hook, SiteInfoEffect(c, parse, lines, s), |lines| + 1)
  }

  /** After `parse_site_info` has ended with `st`: its exception, or the
      hook's, stops the run; otherwise the main loop starts at line `pos`. */
  function AfterSiteInfo(hook: SiteFields -> Option<Error>, st: SiteStep, pos: nat): Stage
  {
    if st.error.Some? then Stopped(st.fields, Raised(st.error.value))
    else
      match hook(st.fields)
      case Some(e) => Stopped(st.fields, Raised(e))
      case None => EnterMainLoop(st.fields, pos)
  }

  /** A first line that passes the schema check and a complete site-info
      block lead to `parse_site_info` on that block. */
  lemma PrepareAfter(c: Config, parse: string -> Option<Element>, hook: SiteFields -> Option<Error>,
                     input: seq<string>, s: SiteFields, lines: seq<string>)
    requires ParseSchema(c, [Strip(LineAt(input, 0), Unicode)]).Ok?
    requires SiteInfoBlock(StripAll(input, Unicode)) == Some(lines)
    ensures Prepare(c, parse, hook, input, s) == AfterSiteInfo(hook, SiteInfoEffect(c, parse, lines, s), |lines| + 1)
  {
  }

  /** A first line that fails the schema check stops the run with its error. */
  lemma PrepareSchemaFails(c: Config, parse: string -> Option<Element>, hook: SiteFields -> Option<Error>,
                           input: seq<string>, s: SiteFields)
    requires ParseSchema(c, [Strip(LineAt(input, 0), Unicode)]).Err?
    ensures Prepare(c, parse, hook, input, s) == Stopped(s, Raised(ParseSchema(c, [Strip(LineAt(input, 0), Unicode)]).error))
  {
  }

  /** Input that ends before `</siteinfo>` stops the run, nothing set. */
  lemma PrepareNoSiteInfoEnd(c: Config, parse: string -> Option<Element>, hook: SiteFields -> Option<Error>,
                             input: seq<string>, s: SiteFields)
    requires ParseSchema(c, [Strip(LineAt(input, 0), Unicode)]).Ok?
    requires SiteInfoBlock(StripAll(input, Unicode)).None?
    ensures Prepare(c, parse, hook, input, s) == Stopped(s, Incomplete)
  {
  }

  /** An exception of `parse_site_info` stops the run with the attributes
      it had set so far. */
  lemma PrepareSiteInfoRaises(c: Config, parse: string -> Option<Element>, hook: SiteFields -> Option<Error>,
                              input: seq<string>, s: SiteFields, lines: seq<string>, fs: SiteFields, e: Error)
    requires ParseSchema(c, [Strip(LineAt(input, 0), Unicode)]).Ok?
    requires SiteInfoBlock(StripAll(input, Unicode)) == Some(lines)
    requires SiteInfoEffect(c, parse, lines, s) == SiteStep(fs, Some(e))
    ensures Prepare(c, parse, hook, input, s) == Stopped(fs, Raised(e))
  {
    PrepareAfter(c, parse, hook, input, s, lines);
  }

  /** An exception of the hook stops the run after `parse_site_info`. */
  lemma PrepareHookRaises(c: Config, parse: string -> Option<Element>, hook: SiteFields -> Option<Error>,
                          input: seq<string>, s: SiteFields, lines: seq<string>, fs: SiteFields, e: Error)
    requires ParseSchema(c, [Strip(LineAt(input, 0), Unicode)]).Ok?
    requires SiteInfoBlock(StripAll(input, Unicode)) == Some(lines)
    requires SiteInfoEffect(c, parse, lines, s) == SiteStep(fs, None)
    requires hook(fs) == Some(e)
    ensures Prepare(c, parse, hook, input, s) == Stopped(fs, Raised(e))
  {
    PrepareAfter(c, parse, hook, input, s, lines);
  }

  /** The schema line passes, the site-info block is complete, and both
      `parse_site_info` and the hook end normally: the main loop starts on
      the line after `</siteinfo>`. */
  lemma PrepareMain(c: Config, parse: string -> Option<Element>, hook: SiteFields -> Option<Error>,
                    input: seq<string>, s: SiteFields, lines: seq<string>, fs: SiteFields)
    requires ParseSchema(c, [Strip(LineAt(input, 0), Unicode)]).Ok?
    requires SiteInfoBlock(StripAll(input, Unicode)) == Some(lines)
    requires SiteInfoEffect(c, parse, lines, s) == SiteStep(fs, None)
    requires hook(fs).None?
    ensures Prepare(c, parse, hook, input, s) == EnterMainLoop(fs, |lines| + 1)
  {
    PrepareAfter(c, parse, hook, input, s, lines);
  }

  /** The hook of the base class, which does not override
      `parse_site_info`. */
  function NoOverride(fs: SiteFields): Option<Error>
  {
    None
  }

  /** `execute`, from the attributes, counter and handled pages before it. */
  function Run(c: Config, parse: string -> Option<Element>, hook: SiteFields -> Option<Error>,
               handler: Element -> Option<Error>, input: seq<string>, s: SiteFields, lineNo: int,
               handled: seq<Element>): RunResult
  {
    match Prepare(c, parse, hook, input, s)
    case Stopped(fs, outcome) => RunResult(fs, Trace(lineNo, handled, outcome))
    case EnterMainLoop(fs, pos) =>
      RunResult(fs, Process(parse, handler, Blocks(input, StripAll(input, Unicode), pos), lineNo, handled))
  }

  /** Before the main loop nothing is counted, no page is handled and the
      run does not finish. */
  lemma RunStoppedEarly(c: Config, parse: string -> Option<Element>, hook: SiteFields -> Option<Error>,
                        handler: Element -> Option<Error>, input: seq<string>, s: SiteFields, lineNo: int,
                        handled: seq<Element>, fs: SiteFields, outcome: Outcome)
    requires Prepare(c, parse, hook, input, s) == Stopped(fs, outcome)
    ensures Run(c, parse, hook, handler, input, s, lineNo, handled) == RunResult(fs, Trace(lineNo, handled, outcome))
    ensures outcome != Finished
  {
    match ParseSchema(c, [Strip(LineAt(input, 0), Unicode)])
    case Err(_) =>
    case Ok(_) =>
      match SiteInfoBlock(StripAll(input, Unicode))
      case None =>
      case Some(lines) => PrepareAfter(c, parse, hook, input, s, lines);
  }

  /** The main loop of a run that gets past the site info, as
      `MainLoopRun` describes it on the stripped input. */
  lemma RunMainLoop(c: Config, parse: string -> Option<Element>, hook: SiteFields -> Option<Error>,
                    handler: Element -> Option<Error>, input: seq<string>, s: SiteFields, lineNo: int,
                    handled: seq<Element>, fs: SiteFields, pos: nat)
    requires Prepare(c, parse, hook, input, s) == EnterMainLoop(fs, pos)
    ensures var view := StripAll(input, Unicode);
      var bs := Blocks(input, view, pos);
      var r := Run(c, parse, hook, handler, input, s, lineNo, handled);
      var t := r.trace;
      && r.fields == fs
      && Tiled(bs, pos, |input|)
      && (forall b :: b in bs ==> WellFormed(input, view, b))
      && lineNo <= t.lineNo <= lineNo + |bs|
      && handled <= t.handled
      && (!t.outcome.Raised? ==>
            && t.lineNo == lineNo + |bs|
            && t.handled == handled + Pages(parse, bs)
            && |Pages(parse, bs)| == CountPageBlocks(bs)
            && (t.outcome == Finished <==> bs != [] && bs[|bs| - 1].EndOfDump?))
  {
    MainLoopRun(parse, handler, input, StripAll(input, Unicode), pos, lineNo, handled);
  }

  /** A run only appends to the pages handled before it. */
  lemma RunAppendsPages(c: Config, parse: string -> Option<Element>, hook: SiteFields -> Option<Error>,
                        handler: Element -> Option<Error>, input: seq<string>, s: SiteFields, lineNo: int,
                        handled: seq<Element>)
    ensures handled <= Run(c, parse, hook, handler, input, s, lineNo, handled).trace.handled
  {
    match Prepare(c, parse, hook, input, s)
    case Stopped(fs, o) => RunStoppedEarly(c, parse, hook, handler, input, s, lineNo, handled, fs, o);
    case EnterMainLoop(fs, pos) => RunMainLoop(c, parse, hook, handler, input, s, lineNo, handled, fs, pos);
  }

  /** The parser object: its input stream, the schema options read by the
      constructor, the `line_no` and `pages_processed` counters, the
      attributes `parse_site_info` assigns (`namespaces` stands for
      `_namespaces`, `caseRule` for `case`), and the pages
      `handle_page` has returned from so far. */
  class XmlStreamParser {
    const input: seq<string>
    /** Every input line as the loops of `execute` compare it, stripped. */
    const view: seq<string> := StripAll(input, Unicode)
    const config: Config
    var lineNo: int
    var pagesProcessed: int
    var namespaces: Attr<map<Option<string>, Option<string>>>
    var generator: Attr<Option<string>>
    var base: Attr<Option<string>>
    var caseRule: Attr<Option<string>>
    var sitename: Attr<Option<string>>
    var pagesHandled: seq<Element>

    function Fields(): SiteFields
      reads this
    {
      SiteFields(namespaces, generator, base, caseRule, sitename)
    }

    /** `__init__`: the schema options from the keyword arguments, both
        counters at zero, nothing parsed yet. */
    constructor (input: seq<string>, kwargs: map<string, string>)
      ensures this.input == input && config == ConfigFrom(kwargs)
      ensures lineNo == 0 && pagesProcessed == 0 && pagesHandled == []
      ensures Fields() == SiteFields(Unset, Unset, Unset, Unset, Unset)
    {
      this.input := input;
      config := ConfigFrom(kwargs);
      lineNo := 0;
      pagesProcessed := 0;
      namespaces, generator, base, caseRule, sitename := Unset, Unset, Unset, Unset, Unset;
      pagesHandled := [];
    }

    /** `parse_site_info`: `err` is the exception it raises, if any. */
    method ParseSiteInfo(parse: string -> Option<Element>, lines: seq<string>) returns (err: Option<Error>)
      modifies this
      ensures SiteStep(Fields(), err) == SiteInfoEffect(config, parse, lines, old(Fields()))
      ensures lineNo == old(lineNo) && pagesProcessed == old(pagesProcessed) && pagesHandled == old(pagesHandled)
    {
      var tree := ParseEtree(parse, lines, "siteinfo");
      if tree.Err? {
        return Some(tree.error);
      }
      var si := tree.value;
      var ns := NamespacesOf(si);
      if ns.Err? {
        return Some(ns.error);
      }
      FillNamespaces(ns.value);
      var g := GeneratorOf(si);
      if g.Err? {
        return Some(g.error);
      }
      generator := Set(g.value);
      err := GeneratorCheck(config, g.value);
      if err.Some? {
        return;
      }
      err := AssignNames(si);
    }

    /** The loop of `parse_site_info` that fills the namespace table, one
        `namespace` element at a time. */
    method FillNamespaces(ns: Element)
      modifies this
      ensures Fields() == old(Fields()).(namespaces := Set(NamespaceTable(FindAll(ns, "namespace"))))
      ensures lineNo == old(lineNo) && pagesProcessed == old(pagesProcessed) && pagesHandled == old(pagesHandled)
    {
      var elems := FindAll(ns, "namespace");
      namespaces := Set(map[]);
      for i := 0 to |elems|
        invariant namespaces == Set(NamespaceTable(elems[..i]))
        invariant generator == old(generator) && base == old(base)
        invariant caseRule == old(caseRule) && sitename == old(sitename)
        invariant lineNo == old(lineNo) && pagesProcessed == old(pagesProcessed) && pagesHandled == old(pagesHandled)
      {
        assert elems[..i + 1][..i] == elems[..i];
        namespaces := Set(namespaces.value[KeyOf(elems[i]) := elems[i].text]);
      }
      assert elems[..|elems|] == elems;
    }

    /** The assignments of `base`, `case` and `sitename`. */
    method AssignNames(si: Element) returns (err: Option<Error>)
      modifies this
      ensures SiteStep(Fields(), err) == SiteNames(si, old(Fields()))
      ensures lineNo == old(lineNo) && pagesProcessed == old(pagesProcessed) && pagesHandled == old(pagesHandled)
    {
      var b := TextOf(si, "base");
      if b.Err? {
        return Some(b.error);
      }
      base := Set(b.value);
      var cr := TextOf(si, "case");
      if cr.Err? {
        return Some(cr.error);
      }
      caseRule := Set(cr.value);
      var n := TextOf(si, "sitename");
      if n.Err? {
        return Some(n.error);
      }
      sitename := Set(n.value);
      err := None;
    }

    /** `execute`, with `handler` as the `handle_page` hook and `hook` as
        what an override of `parse_site_info` adds after the base call. */
    method Execute(parse: string -> Option<Element>, hook: SiteFields -> Option<Error>,
                   handler: Element -> Option<Error>) returns (outcome: Outcome)
      modifies this
      ensures var r := Run(config, parse, hook, handler, input, old(Fields()), old(lineNo), old(pagesHandled));
        && Fields() == r.fields && lineNo == r.trace.lineNo
        && pagesHandled == r.trace.handled && outcome == r.trace.outcome
      ensures pagesProcessed == old(pagesProcessed) + |pagesHandled| - |old(pagesHandled)|
    {
      var stage := Prelude(parse, hook);
      match stage
      case Stopped(_, o) =>
        outcome := o;
      case EnterMainLoop(_, pos) =>
        outcome := MainLoop(parse, handler, pos);
    }

    /** The part of `execute` before the main loop: the schema line, the
        site-info block, `parse_site_info` and the hook. */
    method Prelude(parse: string -> Option<Element>, hook: SiteFields -> Option<Error>) returns (stage: Stage)
      modifies this
      ensures stage == Prepare(config, parse, hook, input, old(Fields())) && Fields() == stage.fields
      ensures lineNo == old(lineNo) && pagesProcessed == old(pagesProcessed) && pagesHandled == old(pagesHandled)
    {
      ghost var s := Fields();
      var ln := Strip(LineAt(input, 0), Unicode);
      var schema := ParseSchema(config, [ln]);
      if schema.Err? {
        PrepareSchemaFails(config, parse, hook, input, s);
        return Stopped(Fields(), Raised(schema.error));
      }
      SchemaLineIsNotSiteInfoEnd(config, ln);
      StripAllAt(input, Unicode, 0);
      var lines := ReadSiteInfo(input, view);
      if lines.None? {
        PrepareNoSiteInfoEnd(config, parse, hook, input, s);
        return Stopped(Fields(), Incomplete);
      }
      var err := ParseSiteInfo(parse, lines.value);
      if err.Some? {
        PrepareSiteInfoRaises(config, parse, hook, input, s, lines.value, Fields(), err.value);
        return Stopped(Fields(), Raised(err.value));
      }
      var hookErr := hook(Fields());
      if hookErr.Some? {
        PrepareHookRaises(config, parse, hook, input, s, lines.value, Fields(), hookErr.value);
        return Stopped(Fields(), Raised(hookErr.value));
      }
      PrepareMain(config, parse, hook, input, s, lines.value, Fields());
      return EnterMainLoop(Fields(), |lines.value| + 1);
    }

    /** The main loop of `execute` from line `pos`: one `Turn` per
        top-level line, until a turn stops the run or the input runs out. */
    method MainLoop(parse: string -> Option<Element>, handler: Element -> Option<Error>, pos: nat)
      returns (outcome: Outcome)
      modifies this
      ensures var t := Process(parse, handler, Blocks(input, view, pos), old(lineNo), old(pagesHandled));
        lineNo == t.lineNo && pagesHandled == t.handled && outcome == t.outcome
      ensures Fields() == old(Fields())
      ensures pagesProcessed == old(pagesProcessed) + |pagesHandled| - |old(pagesHandled)|
    {
      ghost var target := Process(parse, handler, Blocks(input, view, pos), lineNo, pagesHandled);
      var at := pos;
      while at < |input|
        invariant Fields() == old(Fields())
        invariant Process(parse, handler, Blocks(input, view, at), lineNo, pagesHandled) == target
        invariant pagesProcessed - |pagesHandled| == old(pagesProcessed) - |old(pagesHandled)|
        decreases |input| - at
      {
        ghost var n, h := lineNo, pagesHandled;
        var next, stop := Turn(parse, handler, at);
        ProcessTurn(parse, handler, input, view, at, n, h);
        if stop.Some? {
          return stop.value;
        }
        at := next;
      }
      MainStepEof(parse, handler, input, view, at, lineNo, pagesHandled);
      return Incomplete;
    }

    /** One turn of the main loop on the top-level line at `at`: `line_no`
        moves; a page is read, parsed and handed to `handler`, and then
        `pages_processed` moves; `</mediawiki>` stops the run; any other line
        is skipped. `stop` is the outcome when the run ends in this turn,
        otherwise the loop goes on at line `next`. */
    method Turn(parse: string -> Option<Element>, handler: Element -> Option<Error>, at: nat)
      returns (next: nat, stop: Option<Outcome>)
      requires at < |input|
      modifies this
      ensures Fields() == old(Fields())
      ensures pagesProcessed - |pagesHandled| == old(pagesProcessed) - |old(pagesHandled)|
      ensures match StepBlock(parse, handler, NextBlock(input, view, at), old(lineNo), old(pagesHandled))
        case Stop(t) => stop == Some(t.outcome) && lineNo == t.lineNo && pagesHandled == t.handled
        case Go(nx, l, hs) => stop.None? && next == nx && lineNo == l && pagesHandled == hs
    {
      var ln := view[at];
      lineNo := lineNo + 1;
      if ln == "<page>" {
        next, stop := PageTurn(parse, handler, at, lineNo - 1);
      } else if ln == "</mediawiki>" {
        return at, Some(Finished);
      } else {
        return at + 1, None;
      }
    }

    /** The `<page>` branch of a turn, entered with `line_no` already moved
        from `n`: the page lines up to `</page>` are read, parsed and
        handed to `handler`, and then `pages_processed` moves. */
    method PageTurn(parse: string -> Option<Element>, handler: Element -> Option<Error>, at: nat, ghost n: int)
      returns (next: nat, stop: Option<Outcome>)
      requires at < |input| && view[at] == "<page>" && lineNo == n + 1
      modifies this
      ensures Fields() == old(Fields()) && lineNo == old(lineNo)
      ensures pagesProcessed - |pagesHandled| == old(pagesProcessed) - |old(pagesHandled)|
      ensures match StepBlock(parse, handler, NextBlock(input, view, at), n, old(pagesHandled))
        case Stop(t) => stop == Some(t.outcome) && lineNo == t.lineNo && pagesHandled == t.handled
        case Go(nx, l, hs) => stop.None? && next == nx && lineNo == l && pagesHandled == hs
    {
      var pageLines, closed := ReadPage(input, view, at);
      if !closed {
        return at, Some(Incomplete);
      }
      var page := ParseEtree(parse, pageLines, "page");
      if page.Err? {
        return at, Some(Raised(page.error));
      }
      var handlerErr := handler(page.value);
      if handlerErr.Some? {
        return at, Some(Raised(handlerErr.value));
      }
      pagesHandled := pagesHandled + [page.value];
      pagesProcessed := pagesProcessed + 1;
      return at + |pageLines|, None;
    }
  }
}
