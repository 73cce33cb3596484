/** The Python 2 revision of `XmlStreamParser` (mwtools/streamparser.py):
    lines are stripped of ASCII white space only, `parse_site_info` empties
    the namespace table before it looks at the generator and fills it only
    after the generator check, and there is no `pages_processed` counter. */
module LegacyStreamParser {
  import opened Common
  import opened Text
  import opened ElementTree
  import opened DumpParser
  import StreamParser

  /** `parse_site_info` of this revision, from the attributes before the
      call to the attributes after it and the exception it raised, if any. */
  function SiteInfoEffect(c: Config, parse: string -> Option<Element>, lines: seq<string>, s: SiteFields): SiteStep
  {
    match ParseEtree(parse, lines, "siteinfo")
    case Err(e) => SiteStep(s, Some(e))
    case Ok(si) =>
      match NamespacesOf(si)
      case Err(e) => SiteStep(s, Some(e))
      case Ok(ns) =>
        var s1 := s.(namespaces := Set(map[]));
        match GeneratorOf(si)
        case Err(e) => SiteStep(s1, Some(e))
        case Ok(g) =>
          var s2 := s1.(generator := Set(g));
          match GeneratorCheck(c, g)
          case Some(e) => SiteStep(s2, Some(e))
          case None =>
            SiteNames(si, s2.(namespaces := Set(NamespaceTable(FindAll(ns, "namespace")))))
  }

  /** How `parse_site_info` ends in this revision: a tree that does not
      parse or lacks namespaces raises before any attribute is set; a
      missing generator raises `ParseError` and a generator without text
      `TypeError`, both with the namespace table set but still empty;
      past the generator check the table is filled; and a call that ends
      normally has set every attribute. */
  lemma SiteInfoOutcomes(c: Config, parse: string -> Option<Element>, lines: seq<string>, s: SiteFields)
    ensures var r := SiteInfoEffect(c, parse, lines, s);
      var tree := ParseEtree(parse, lines, "siteinfo");
      && (tree.Err? ==> r == SiteStep(s, Some(tree.error)))
      && (tree.Ok? && NamespacesOf(tree.value).Err? ==> r == SiteStep(s, Some(ParseError(NoNamespaces))))
      && (tree.Ok? && NamespacesOf(tree.value).Ok? ==>
            && (r.error == Some(ParseError(NoGenerator)) <==> Find(tree.value, "generator").None?)
            && (Find(tree.value, "generator").None? ==>
                  r == SiteStep(s.(namespaces := Set(map[])), Some(ParseError(NoGenerator))))
            && (Find(tree.value, "generator").Some? ==>
                  && r.fields.generator == Set(Find(tree.value, "generator").value.text)
                  && (r.error == Some(TypeError) <==> Find(tree.value, "generator").value.text.None?)
                  && (r.error == Some(TypeError) ==> r.fields.namespaces == Set(map[]))
                  && (r.error != Some(TypeError) ==>
                        r.fields.namespaces == Set(NamespaceTable(FindAll(NamespacesOf(tree.value).value, "namespace"))))))
      && (r.error.None? ==>
            && r.fields.namespaces.Set? && r.fields.generator.Set?
            && r.fields.base.Set? && r.fields.caseRule.Set? && r.fields.sitename.Set?)
  {
    var tree := ParseEtree(parse, lines, "siteinfo");
    if tree.Ok? {
      SiteNamesSpec(tree.value, s.(namespaces := Set(map[])));
      match GeneratorOf(tree.value)
      case Err(_) =>
      case Ok(g) =>
        var ns := NamespacesOf(tree.value);
        if ns.Ok? {
          var s3 := s.(namespaces := Set(NamespaceTable(FindAll(ns.value, "namespace"))), generator := Set(g));
          SiteNamesSpec(tree.value, s3);
        }
    }
  }

  /** The two revisions differ only in when the namespace table is filled:
      a call that ends normally leaves the same attributes in both, and one
      that fails on the generator leaves this revision's table empty where
      the Python 3 revision's is already filled. */
  lemma RevisionsCompared(c: Config, parse: string -> Option<Element>, lines: seq<string>, s: SiteFields)
    ensures var r := SiteInfoEffect(c, parse, lines, s);
      var r3 := StreamParser.SiteInfoEffect(c, parse, lines, s);
      && r.error == r3.error
      && (r.error.None? ==> r == r3)
      && (r.error == Some(ParseError(NoGenerator)) || r.error == Some(TypeError) ==>
            && r.fields.namespaces == Set(map[])
            && r.fields == r3.fields.(namespaces := Set(map[])))
  {
    var tree := ParseEtree(parse, lines, "siteinfo");
    if tree.Ok? {
      var si := tree.value;
      match NamespacesOf(si)
      case Err(_) =>
      case Ok(ns) =>
        var table := Set(NamespaceTable(FindAll(ns, "namespace")));
        match GeneratorOf(si)
        case Err(_) =>
        case Ok(g) =>
          var s3 := s.(namespaces := table, generator := Set(g));
          assert s.(namespaces := Set(map[])).(generator := Set(g)).(namespaces := table) == s3;
          assert s.(namespaces := table).(generator := Set(g)) == s3;
          SiteNamesSpec(si, s3);
    }
  }

  /** The part of `execute` before the main loop: the schema check on the
      stripped first line, the site-info lines and `parse_site_info`. */
  function Prepare(c: Config, parse: string -> Option<Element>, input: seq<string>, s: SiteFields): Stage
  {
    match ParseSchema(c, [Strip(LineAt(input, 0), Ascii)])
    case Err(e) => Stopped(s, Raised(e))
    case Ok(_) =>
      match SiteInfoBlock(StripAll(input, Ascii))
      case None => Stopped(s, Incomplete)
      case Some(lines) => AfterSiteInfo(SiteInfoEffect(c, parse, lines, s), |lines| + 1)
  }

  /** After `parse_site_info` has ended with `st`: its exception stops the
      run; otherwise the main loop starts at line `pos`. */
  function AfterSiteInfo(st: SiteStep, pos: nat): Stage
  {
    if st.error.Some? then Stopped(st.fields, Raised(st.error.value)) else EnterMainLoop(st.fields, pos)
  }

  /** A first line that passes the schema check and a complete site-info
      block lead to `parse_site_info` on that block. */
  lemma PrepareAfter(c: Config, parse: string -> Option<Element>, input: seq<string>, s: SiteFields,
                     lines: seq<string>)
    requires ParseSchema(c, [Strip(LineAt(input, 0), Ascii)]).Ok?
    requires SiteInfoBlock(StripAll(input, Ascii)) == Some(lines)
    ensures Prepare(c, parse, input, s) == AfterSiteInfo(SiteInfoEffect(c, parse, lines, s), |lines| + 1)
  {
  }

  /** `execute`, from the attributes, counter and handled pages before it. */
  function Run(c: Config, parse: string -> Option<Element>, handler: Element -> Option<Error>,
               input: seq<string>, s: SiteFields, lineNo: int, handled: seq<Element>): RunResult
  {
    match Prepare(c, parse, input, s)
    case Stopped(fs, outcome) => RunResult(fs, Trace(lineNo, handled, outcome))
    case EnterMainLoop(fs, pos) =>
      RunResult(fs, Process(parse, handler, Blocks(input, StripAll(input, Ascii), pos), lineNo, handled))
  }

  /** Before the main loop nothing is counted, no page is handled and the
      run does not finish. */
  lemma RunStoppedEarly(c: Config, parse: string -> Option<Element>, handler: Element -> Option<Error>,
                        input: seq<string>, s: SiteFields, lineNo: int, handled: seq<Element>,
                        fs: SiteFields, outcome: Outcome)
    requires Prepare(c, parse, input, s) == Stopped(fs, outcome)
    ensures Run(c, parse, handler, input, s, lineNo, handled) == RunResult(fs, Trace(lineNo, handled, outcome))
    ensures outcome != Finished
  {
    match ParseSchema(c, [Strip(LineAt(input, 0), Ascii)])
    case Err(_) =>
    case Ok(_) =>
      match SiteInfoBlock(StripAll(input, Ascii))
      case None =>
      case Some(lines) => PrepareAfter(c, parse, input, s, lines);
  }

  /** The main loop of a run that gets past the site info, as
      `MainLoopRun` describes it on the input stripped of ASCII white
      space. */
  lemma RunMainLoop(c: Config, parse: string -> Option<Element>, handler: Element -> Option<Error>,
                    input: seq<string>, s: SiteFields, lineNo: int, handled: seq<Element>,
                    fs: SiteFields, pos: nat)
    requires Prepare(c, parse, input, s) == EnterMainLoop(fs, pos)
    ensures var view := StripAll(input, Ascii);
      var bs := Blocks(input, view, pos);
      var r := Run(c, parse, handler, input, s, lineNo, handled);
      var t := r.trace;
      && r.fields == fs
      && Tiled(bs, pos, |input|)
      && (forall b :: b in bs ==> WellFormed(input, view, b))
      && lineNo <= t.lineNo <= lineNo + |bs|
      && handled <= t.handled
      && (!t.outcome.Raised? ==>
            && t.lineNo == lineNo + |bs|
            && t.handled == handled + Pages(parse, bs)
            && |Pages(parse, bs)| == CountPageBlocks(bs)
            && (t.outcome == Finished <==> bs != [] && bs[|bs| - 1].EndOfDump?))
  {
    MainLoopRun(parse, handler, input, StripAll(input, Ascii), pos, lineNo, handled);
  }

  /** The parser object: its input stream, the schema options read by the
      constructor, the `line_no` counter, the attributes `parse_site_info`
      assigns (`caseRule` stands for `case`), and the pages
      `handle_page` has returned from so far. */
  class XmlStreamParser {
    const input: seq<string>
    /** Every input line as the loops of `execute` compare it, stripped. */
    const view: seq<string> := StripAll(input, Ascii)
    const config: Config
    var lineNo: int
    var namespaces: Attr<map<Option<string>, Option<string>>>
    var generator: Attr<Option<string>>
    var base: Attr<Option<string>>
    var caseRule: Attr<Option<string>>
    var sitename: Attr<Option<string>>
    var pagesHandled: seq<Element>

    function Fields(): SiteFields
      reads this
    {
      SiteFields(namespaces, generator, base, caseRule, sitename)
    }

    /** `__init__`: the schema options from the keyword arguments, the
        counter at zero, nothing parsed yet. */
    constructor (input: seq<string>, kwargs: map<string, string>)
      ensures this.input == input && config == ConfigFrom(kwargs)
      ensures lineNo == 0 && pagesHandled == []
      ensures Fields() == SiteFields(Unset, Unset, Unset, Unset, Unset)
    {
      this.input := input;
      config := ConfigFrom(kwargs);
      lineNo := 0;
      namespaces, generator, base, caseRule, sitename := Unset, Unset, Unset, Unset, Unset;
      pagesHandled := [];
    }

    /** `parse_site_info`: `err` is the exception it raises, if any. */
    method ParseSiteInfo(parse: string -> Option<Element>, lines: seq<string>) returns (err: Option<Error>)
      modifies this
      ensures SiteStep(Fields(), err) == SiteInfoEffect(config, parse, lines, old(Fields()))
      ensures lineNo == old(lineNo) && pagesHandled == old(pagesHandled)
    {
      var tree := ParseEtree(parse, lines, "siteinfo");
      if tree.Err? {
        return Some(tree.error);
      }
      var si := tree.value;
      var ns := NamespacesOf(si);
      if ns.Err? {
        return Some(ns.error);
      }
      namespaces := Set(map[]);
      var g := GeneratorOf(si);
      if g.Err? {
        return Some(g.error);
      }
      generator := Set(g.value);
      err := GeneratorCheck(config, g.value);
      if err.Some? {
        return;
      }
      FillNamespaces(ns.value);
      err := AssignNames(si);
    }

    /** The loop of `parse_site_info` that fills the table emptied before
        the generator check, one `namespace` element at a time. */
    method FillNamespaces(ns: Element)
      requires namespaces == Set(map[])
      modifies this
      ensures Fields() == old(Fields()).(namespaces := Set(NamespaceTable(FindAll(ns, "namespace"))))
      ensures lineNo == old(lineNo) && pagesHandled == old(pagesHandled)
    {
      var elems := FindAll(ns, "namespace");
      for i := 0 to |elems|
        invariant namespaces == Set(NamespaceTable(elems[..i]))
        invariant generator == old(generator) && base == old(base)
        invariant caseRule == old(caseRule) && sitename == old(sitename)
        invariant lineNo == old(lineNo) && pagesHandled == old(pagesHandled)
      {
        assert elems[..i + 1][..i] == elems[..i];
        namespaces := Set(namespaces.value[KeyOf(elems[i]) := elems[i].text]);
      }
      assert elems[..|elems|] == elems;
    }

    /** The assignments of `base`, `case` and `sitename`. */
    method AssignNames(si: Element) returns (err: Option<Error>)
      modifies this
      ensures SiteStep(Fields(), err) == SiteNames(si, old(Fields()))
      ensures lineNo == old(lineNo) && pagesHandled == old(pagesHandled)
    {
      var b := TextOf(si, "base");
      if b.Err? {
        return Some(b.error);
      }
      base := Set(b.value);
      var cr := TextOf(si, "case");
      if cr.Err? {
        return Some(cr.error);
      }
      caseRule := Set(cr.value);
      var n := TextOf(si, "sitename");
      if n.Err? {
        return Some(n.error);
      }
      sitename := Set(n.value);
      err := None;
    }

    /** `execute`, with `handler` as the `handle_page` hook. */
    method Execute(parse: string -> Option<Element>, handler: Element -> Option<Error>) returns (outcome: Outcome)
      modifies this
      ensures var r := Run(config, parse, handler, input, old(Fields()), old(lineNo), old(pagesHandled));
        && Fields() == r.fields && lineNo == r.trace.lineNo
        && pagesHandled == r.trace.handled && outcome == r.trace.outcome
    {
      var stage := Prelude(parse);
      match stage
      case Stopped(_, o) =>
        outcome := o;
      case EnterMainLoop(_, pos) =>
        outcome := MainLoop(parse, handler, pos);
    }

    /** The part of `execute` before the main loop: the schema line, the
        site-info block and `parse_site_info`. */
    method Prelude(parse: string -> Option<Element>) returns (stage: Stage)
      modifies this
      ensures stage == Prepare(config, parse, input, old(Fields())) && Fields() == stage.fields
      ensures lineNo == old(lineNo) && pagesHandled == old(pagesHandled)
    {
      ghost var s := Fields();
      var ln := Strip(LineAt(input, 0), Ascii);
      var schema := ParseSchema(config, [ln]);
      if schema.Err? {
        return Stopped(Fields(), Raised(schema.error));
      }
      SchemaLineIsNotSiteInfoEnd(config, ln);
      StripAllAt(input, Ascii, 0);
      var lines := ReadSiteInfo(input, view);
      if lines.None? {
        return Stopped(Fields(), Incomplete);
      }
      var err := ParseSiteInfo(parse, lines.value);
      PrepareAfter(config, parse, input, s, lines.value);
      if err.Some? {
        return Stopped(Fields(), Raised(err.value));
      }
      return EnterMainLoop(Fields(), |lines.value| + 1);
    }

    /** The main loop of `execute` from line `pos`: one `Turn` per
        top-level line, until a turn stops the run or the input runs out. */
    method MainLoop(parse: string -> Option<Element>, handler: Element -> Option<Error>, pos: nat)
      returns (outcome: Outcome)
      modifies this
      ensures var t := Process(parse, handler, Blocks(input, view, pos), old(lineNo), old(pagesHandled));
        lineNo == t.lineNo && pagesHandled == t.handled && outcome == t.outcome
      ensures Fields() == old(Fields())
    {
      ghost var target := Process(parse, handler, Blocks(input, view, pos), lineNo, pagesHandled);
      var at := pos;
      while at < |input|
        invariant Fields() == old(Fields())
        invariant Process(parse, handler, Blocks(input, view, at), lineNo, pagesHandled) == target
        decreases |input| - at
      {
        ghost var n, h := lineNo, pagesHandled;
        var next, stop := Turn(parse, handler, at);
        ProcessTurn(parse, handler, input, view, at, n, h);
        if stop.Some? {
          return stop.value;
        }
        at := next;
      }
      MainStepEof(parse, handler, input, view, at, lineNo, pagesHandled);
      return Incomplete;
    }

    /** One turn of the main loop on the top-level line at `at`: `line_no`
        moves; a page is read, parsed and handed to `handler`;
        `</mediawiki>` stops the run; any other line is skipped. `stop` is
        the outcome when the run ends in this turn, otherwise the loop goes
        on at line `next`. */
    method Turn(parse: string -> Option<Element>, handler: Element -> Option<Error>, at: nat)
      returns (next: nat, stop: Option<Outcome>)
      requires at < |input|
      modifies this
      ensures Fields() == old(Fields())
      ensures match StepBlock(parse, handler, NextBlock(input, view, at), old(lineNo), old(pagesHandled))
        case Stop(t) => stop == Some(t.outcome) && lineNo == t.lineNo && pagesHandled == t.handled
        case Go(nx, l, hs) => stop.None? && next == nx && lineNo == l && pagesHandled == hs
    {
      var ln := view[at];
      lineNo := lineNo + 1;
      if ln == "<page>" {
        next, stop := PageTurn(parse, handler, at, lineNo - 1);
      } else if ln == "</mediawiki>" {
        return at, Some(Finished);
      } else {
        return at + 1, None;
      }
    }

    /** The `<page>` branch of a turn, entered with `line_no` already moved
        from `n`: the page lines up to `</page>` are read, parsed and
        handed to `handler`. */
    method PageTurn(parse: string -> Option<Element>, handler: Element -> Option<Error>, at: nat, ghost n: int)
      returns (next: nat, stop: Option<Outcome>)
      requires at < |input| && view[at] == "<page>" && lineNo == n + 1
      modifies this
      ensures Fields() == old(Fields()) && lineNo == old(lineNo)
      ensures match StepBlock(parse, handler, NextBlock(input, view, at), n, old(pagesHandled))
        case Stop(t) => stop == Some(t.outcome) && lineNo == t.lineNo && pagesHandled == t.handled
        case Go(nx, l, hs) => stop.None? && next == nx && lineNo == l && pagesHandled == hs
    {
      var pageLines, closed := ReadPage(input, view, at);
      if !closed {
        return at, Some(Incomplete);
      }
      var page := ParseEtree(parse, pageLines, "page");
      if page.Err? {
        return at, Some(Raised(page.error));
      }
      var handlerErr := handler(page.value);
      if handlerErr.Some? {
        return at, Some(Raised(handlerErr.value));
      }
      pagesHandled := pagesHandled + [page.value];
      return at + |pageLines|, None;
    }
  }
}
