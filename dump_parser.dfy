/** What both revisions of `XmlStreamParser` share: the errors they raise,
    the schema configuration, the schema-line check, the text handed to the
    XML parser, the site-info block, the cutting of the line stream into
    top-level blocks, and the effect of the main loop on the line counter and
    on the pages `handle_page` returned from. */
module DumpParser {
  import opened Common
  import opened Text
  import opened ElementTree

  /** The reasons the module's own `ParseError` carries. */
  datatype Failure = Expected(tag: string) | IllegalSchema | NoNamespaces | NoGenerator

  /** Exceptions that end a run: the module's `ParseError`, the XML parser's
      own syntax error, and the built-in exceptions the code can trigger
      (`lines[0]` of an empty list, `.text` of a missing element, `str + None`,
      a local variable read before it is assigned). */
  datatype Error =
    | ParseError(failure: Failure)
    | XmlSyntaxError
    | IndexError
    | AttributeError
    | TypeError
    | UnboundLocalError

  datatype Result<+T> = Ok(value: T) | Err(error: Error)

  /** How a run of `execute` ends. `Incomplete` stands for the input running
      out while a closing marker is still awaited: `readline()` then returns
      "" for ever and the loops of `execute` never stop. */
  datatype Outcome = Finished | Incomplete | Raised(error: Error)

  /** The keyword arguments the parser reads in its constructor. */
  datatype Config = Config(version: string, location: string, schema: string, generator: string)

  /** `kwargs.get(name, default)` for the four string options, each default
      derived as the constructor derives it. */
  function ConfigFrom(kwargs: map<string, string>): (c: Config)
    ensures "schema_version" !in kwargs ==> c.version == "0.8"
    ensures "schema_location" !in kwargs ==> c.location == "http://www.mediawiki.org/xml/export-" + c.version + "/"
    ensures "schema" !in kwargs ==> c.schema == "http://www.mediawiki.org/xml/export-" + c.version + ".xsd"
    ensures "generator" !in kwargs ==> c.generator == "MediaWiki 1.22wmf8"
    ensures "schema_version" in kwargs ==> c.version == kwargs["schema_version"]
    ensures "schema_location" in kwargs ==> c.location == kwargs["schema_location"]
    ensures "schema" in kwargs ==> c.schema == kwargs["schema"]
    ensures "generator" in kwargs ==> c.generator == kwargs["generator"]
  {
    var version := Lookup(kwargs, "schema_version", "0.8");
    Config(
      version,
      Lookup(kwargs, "schema_location", "http://www.mediawiki.org/xml/export-" + version + "/"),
      Lookup(kwargs, "schema", "http://www.mediawiki.org/xml/export-" + version + ".xsd"),
      Lookup(kwargs, "generator", "MediaWiki 1.22wmf8"))
  }

  function Lookup(kwargs: map<string, string>, key: string, default: string): string
  {
    if key in kwargs then kwargs[key] else default
  }

  /** The opening of the `<mediawiki ...>` element the first line must contain. */
  function SchemaPrefix(c: Config): string
  {
    "<mediawiki xmlns=\"" + c.location + XsiAttributes
      + c.location + " " + c.schema + "\" version=\"" + c.version + "\""
  }

  /** The fixed text between the two occurrences of the schema location. */
  const XsiAttributes := "\" xmlns:xsi=\"http://www.w3.org/2001/XMLSchema-instance\" xsi:schemaLocation=\""

  /** `any([p in line for line in lines])`. */
  function AnyContains(lines: seq<string>, p: string): (b: bool)
    ensures b <==> exists i :: 0 <= i < |lines| && Contains(lines[i], p)
  {
    if |lines| == 0 then false
    else if Contains(lines[0], p) then true
    else
      var b := AnyContains(lines[1..], p);
      assert forall i :: 1 <= i < |lines| ==> lines[i] == lines[1..][i - 1];
      b
  }

  /** `parse_schema`: true when some line holds the prefix; otherwise it
      raises, so it never returns false. */
  function ParseSchema(c: Config, lines: seq<string>): (r: Result<bool>)
    ensures r.Ok? <==> exists i :: 0 <= i < |lines| && Contains(lines[i], SchemaPrefix(c))
    ensures r.Ok? ==> r.value
    ensures r.Err? ==> r.error == ParseError(IllegalSchema)
  {
    var p := SchemaPrefix(c);
    if AnyContains(lines, p) then Ok(true) else Err(ParseError(IllegalSchema))
  }

  /** A line that passes the schema check is neither empty (so the input
      was not exhausted) nor the closing site-info marker, so the site-info
      loop always reads at least one more line. */
  lemma SchemaLineIsNotSiteInfoEnd(c: Config, line: string)
    requires ParseSchema(c, [line]).Ok?
    ensures line != "" && line != "</siteinfo>"
  {
    ContainsLength(line, SchemaPrefix(c));
  }

  function StartTag(tag: string): string
  {
    "<" + tag + ">"
  }

  /** The text `parse_etree` hands to the XML parser. The `replace` on the
      first line has no effect (its result is dropped), so the text is the
      lines joined by newlines, start tag included. */
  function EtreeText(lines: seq<string>, tag: string): Result<string>
  {
    if |lines| == 0 then Err(IndexError)
    else if !Contains(lines[0], StartTag(tag)) then Err(ParseError(Expected(StartTag(tag))))
    else Ok(Join(lines))
  }

  /** No lines raise `IndexError`; a first line without the start tag
      raises `ParseError`; otherwise the text starts with the first line,
      holds the start tag, and has every line plus one newline between
      each pair. */
  lemma EtreeTextSpec(lines: seq<string>, tag: string)
    ensures var r := EtreeText(lines, tag);
      && (r.Ok? <==> |lines| > 0 && Contains(lines[0], StartTag(tag)))
      && (|lines| == 0 ==> r == Err(IndexError))
      && (|lines| > 0 && r.Err? ==> r.error == ParseError(Expected(StartTag(tag))))
      && (r.Ok? ==> StartsWith(r.value, lines[0]) && Contains(r.value, StartTag(tag)))
      && (r.Ok? ==> |r.value| == TotalLength(lines) + |lines| - 1)
  {
    if |lines| > 0 && Contains(lines[0], StartTag(tag)) {
      var text := Join(lines);
      assert text == lines[0] + text[|lines[0]|..];
      ContainsExtend(lines[0], text[|lines[0]|..], StartTag(tag));
      JoinLength(lines);
    }
  }

  /** `parse_etree`: the start-tag check, then `etree.fromstring`, given as `parse`. */
  function ParseEtree(parse: string -> Option<Element>, lines: seq<string>, tag: string): Result<Element>
  {
    match EtreeText(lines, tag)
    case Err(e) => Err(e)
    case Ok(text) =>
      match parse(text)
      case None => Err(XmlSyntaxError)
      case Some(e) => Ok(e)
  }

  /** `parse_etree` yields an element exactly when the start-tag check
      passes and the XML parser accepts the joined lines; the start-tag
      check's exception comes through, and a text the parser refuses
      raises a syntax error. */
  lemma ParseEtreeSpec(parse: string -> Option<Element>, lines: seq<string>, tag: string)
    ensures var r := ParseEtree(parse, lines, tag);
      && (r.Ok? <==> EtreeText(lines, tag).Ok? && parse(EtreeText(lines, tag).value).Some?)
      && (r.Ok? ==> Some(r.value) == parse(Join(lines)))
      && (EtreeText(lines, tag).Err? ==> r.Err? && r.error == EtreeText(lines, tag).error)
      && (EtreeText(lines, tag).Ok? && r.Err? ==> r.error == XmlSyntaxError)
  {
  }

  /** `readline()`: the line at index `i`, or "" once the input is exhausted. */
  function LineAt(input: seq<string>, i: nat): string
  {
    if i < |input| then input[i] else ""
  }

  /** The stripped form of every line, as the loops of `execute` compare
      them (`ln = line.strip()`). */
  function StripAll(lines: seq<string>, f: Flavour): (r: seq<string>)
    ensures |r| == |lines|
  {
    if lines == [] then [] else [Strip(lines[0], f)] + StripAll(lines[1..], f)
  }

  /** Line `i` of the stripped view is line `i` of the input, stripped. */
  lemma {:induction false} StripAllAt(lines: seq<string>, f: Flavour, i: nat)
    requires i < |lines|
    ensures StripAll(lines, f)[i] == Strip(lines[i], f)
    decreases i
  {
    if i > 0 {
      StripAllAt(lines[1..], f, i - 1);
    }
  }

  /** No stripped line in `view[from..to]` is `marker`. */
  predicate NoMatchIn(view: seq<string>, from: nat, to: nat, marker: string)
  {
    forall k :: from <= k < to && k < |view| ==> view[k] != marker
  }

  /** The index of the first stripped line at or after `from` that is
      `marker` (the `while ln != marker` loops of `execute`). */
  function FirstMatch(view: seq<string>, from: nat, marker: string): (r: Option<nat>)
    ensures r.Some? ==> (from <= r.value < |view| && view[r.value] == marker
                         && NoMatchIn(view, from, r.value, marker))
    ensures r.None? <==> NoMatchIn(view, from, |view|, marker)
    decreases |view| - from
  {
    if from >= |view| then None
    else if view[from] == marker then Some(from)
    else FirstMatch(view, from + 1, marker)
  }

  /** The lines `execute` collects for `parse_site_info`: the stripped lines
      after the schema line, up to and including the first `</siteinfo>`. */
  function SiteInfoBlock(view: seq<string>): (r: Option<seq<string>>)
    ensures r.Some? ==> var ls := r.value;
      && 1 <= |ls| < |view|
      && ls[|ls| - 1] == "</siteinfo>"
      && (forall k :: 0 <= k < |ls| - 1 ==> ls[k] != "</siteinfo>")
      && ls == view[1..|ls| + 1]
    ensures r.None? <==> forall k :: 1 <= k < |view| ==> view[k] != "</siteinfo>"
  {
    match FirstMatch(view, 1, "</siteinfo>")
    case None => None
    case Some(j) => Some(view[1..j + 1])
  }

  /** A top-level unit of the main loop, with the index of its first line:
      a page from `<page>` to the first `</page>`, a page whose `</page>`
      never comes, any other line, and the closing `</mediawiki>`. */
  datatype Block =
    | PageBlock(at: nat, lines: seq<string>)
    | OpenPage(at: nat, lines: seq<string>)
    | Stray(at: nat, line: string)
    | EndOfDump(at: nat)

  /** The number of input lines a block spans. */
  function Size(b: Block): nat
  {
    match b
    case PageBlock(_, lines) => |lines|
    case OpenPage(_, lines) => |lines|
    case Stray(_, _) => 1
    case EndOfDump(_) => 1
  }

  /** The top-level block that starts at index `pos`, given the raw lines
      and their stripped forms. The first line of a page is kept stripped
      (`"<page>"`), its other lines as read. */
  function NextBlock(input: seq<string>, view: seq<string>, pos: nat): (b: Block)
    requires |view| == |input| && pos < |input|
    ensures b.at == pos && Size(b) >= 1 && pos + Size(b) <= |input|
    ensures b.OpenPage? ==> pos + Size(b) == |input|
  {
    var ln := view[pos];
    if ln == "<page>" then
      match FirstMatch(view, pos + 1, "</page>")
      case Some(j) => PageBlock(pos, [ln] + input[pos + 1..j + 1])
      case None => OpenPage(pos, [ln] + input[pos + 1..])
    else if ln == "</mediawiki>" then EndOfDump(pos)
    else Stray(pos, ln)
  }

  /** The main loop from index `pos` on, cut into blocks: it goes on after a
      page or any other line and stops after `</mediawiki>` or an unclosed
      page. */
  function Blocks(input: seq<string>, view: seq<string>, pos: nat): seq<Block>
    requires |view| == |input|
    decreases |input| - pos
  {
    if pos >= |input| then []
    else
      var b := NextBlock(input, view, pos);
      if b.PageBlock? || b.Stray? then [b] + Blocks(input, view, pos + Size(b)) else [b]
  }

  /** What a block holds, in terms of the input lines it spans and their
      stripped forms. */
  predicate WellFormed(input: seq<string>, view: seq<string>, b: Block)
    requires |view| == |input|
  {
    && b.at + Size(b) <= |input|
    && match b
       case PageBlock(at, lines) =>
         && |lines| >= 2 && lines[0] == "<page>" && view[at] == "<page>"
         && lines[1..] == input[at + 1..at + |lines|]
         && view[at + |lines| - 1] == "</page>"
         && NoMatchIn(view, at + 1, at + |lines| - 1, "</page>")
       case OpenPage(at, lines) =>
         && |lines| >= 1 && lines[0] == "<page>" && view[at] == "<page>"
         && lines[1..] == input[at + 1..] && at + |lines| == |input|
         && NoMatchIn(view, at + 1, |input|, "</page>")
       case Stray(at, line) =>
         line == view[at] && line != "<page>" && line != "</mediawiki>"
       case EndOfDump(at) =>
         view[at] == "</mediawiki>"
  }

  /** Every block `NextBlock` cuts is well formed. */
  lemma NextBlockShape(input: seq<string>, view: seq<string>, pos: nat)
    requires |view| == |input| && pos < |input|
    ensures WellFormed(input, view, NextBlock(input, view, pos))
  {
  }

  /** The blocks lie one after another from `pos` without gaps, every block
      but the last is a page or an ignored line (the loop goes on after those
      only), and the last one is `</mediawiki>` or ends at line `n`. */
  predicate Tiled(bs: seq<Block>, pos: nat, n: nat)
    decreases |bs|
  {
    || bs == []
    || (&& bs[0].at == pos
        && if |bs| == 1 then bs[0].EndOfDump? || pos + Size(bs[0]) == n
           else (bs[0].PageBlock? || bs[0].Stray?) && Tiled(bs[1..], pos + Size(bs[0]), n))
  }

  /** No block is cut only past the end of the input. */
  lemma BlocksEmpty(input: seq<string>, view: seq<string>, pos: nat)
    requires |view| == |input|
    ensures Blocks(input, view, pos) == [] <==> pos >= |input|
  {
  }

  /** The blocks tile the input from `pos` up to its end or up to
      `</mediawiki>`. */
  lemma {:induction false} BlocksTile(input: seq<string>, view: seq<string>, pos: nat)
    requires |view| == |input|
    ensures Tiled(Blocks(input, view, pos), pos, |input|)
    decreases |input| - pos
  {
    if pos < |input| {
      var b := NextBlock(input, view, pos);
      if b.PageBlock? || b.Stray? {
        var next := pos + Size(b);
        BlocksTile(input, view, next);
        var bs := Blocks(input, view, pos);
        assert bs[0] == b && bs[1..] == Blocks(input, view, next);
      }
    }
  }

  /** Every block is well formed. */
  lemma {:induction false} BlocksWellFormed(input: seq<string>, view: seq<string>, pos: nat)
    requires |view| == |input|
    ensures forall b :: b in Blocks(input, view, pos) ==> WellFormed(input, view, b)
    decreases |input| - pos
  {
    if pos < |input| {
      var b := NextBlock(input, view, pos);
      NextBlockShape(input, view, pos);
      if b.PageBlock? || b.Stray? {
        BlocksWellFormed(input, view, pos + Size(b));
      }
    }
  }

  /** The counter and the pages `handle_page` returned from (without
      raising) after the main loop. */
  datatype Trace = Trace(lineNo: int, handled: seq<Element>, outcome: Outcome)

  /** What one turn of the main loop leaves: the run stops with a trace,
      or goes on at line `next` with the counter and the handled pages. */
  datatype Turned = Stop(trace: Trace) | Go(next: nat, lineNo: int, handled: seq<Element>)

  /** One block of the main loop: it moves `line_no` by one; a page is
      parsed and handed to `handler` (the `handle_page` hook, `Some` when it
      raises) and the loop goes on after it; `</mediawiki>` ends the run; a
      page whose `</page>` never comes waits for ever; any other line is
      skipped. */
  function StepBlock(parse: string -> Option<Element>, handler: Element -> Option<Error>,
                     b: Block, lineNo: int, handled: seq<Element>): (r: Turned)
    ensures r.Go? ==> r.next == b.at + Size(b) && r.lineNo == lineNo + 1 && (b.PageBlock? || b.Stray?)
  {
    match b
    case EndOfDump(_) => Stop(Trace(lineNo + 1, handled, Finished))
    case OpenPage(_, _) => Stop(Trace(lineNo + 1, handled, Incomplete))
    case Stray(at, _) => Go(at + 1, lineNo + 1, handled)
    case PageBlock(at, lines) =>
      match ParseEtree(parse, lines, "page")
      case Err(e) => Stop(Trace(lineNo + 1, handled, Raised(e)))
      case Ok(page) =>
        match handler(page)
        case Some(e) => Stop(Trace(lineNo + 1, handled, Raised(e)))
        case None => Go(at + |lines|, lineNo + 1, handled + [page])
  }

  /** The main loop over its blocks, one `StepBlock` at a time; it waits for
      ever when the blocks run out. */
  function Process(parse: string -> Option<Element>, handler: Element -> Option<Error>,
                   bs: seq<Block>, lineNo: int, handled: seq<Element>): Trace
  {
    if bs == [] then Trace(lineNo, handled, Incomplete)
    else
      match StepBlock(parse, handler, bs[0], lineNo, handled)
      case Stop(t) => t
      case Go(_, l, hs) => Process(parse, handler, bs[1..], l, hs)
  }

  /** A page block that parses and whose hook returns normally (other blocks
      always pass). */
  predicate Accepted(parse: string -> Option<Element>, handler: Element -> Option<Error>, b: Block)
  {
    b.PageBlock? ==> ParseEtree(parse, b.lines, "page").Ok? && handler(ParseEtree(parse, b.lines, "page").value).None?
  }

  /** The tree of a page block that parses (empty for any other block). */
  function PageOf(parse: string -> Option<Element>, b: Block): seq<Element>
  {
    if b.PageBlock? && ParseEtree(parse, b.lines, "page").Ok? then [ParseEtree(parse, b.lines, "page").value] else []
  }

  /** The trees of the page blocks that parse, in order. */
  function Pages(parse: string -> Option<Element>, bs: seq<Block>): seq<Element>
  {
    if bs == [] then [] else PageOf(parse, bs[0]) + Pages(parse, bs[1..])
  }

  /** An accepted block that is not a terminator: the loop handles its page
      (if any) and goes on. */
  lemma ProcessStep(parse: string -> Option<Element>, handler: Element -> Option<Error>,
                    bs: seq<Block>, lineNo: int, handled: seq<Element>)
    requires bs != [] && (bs[0].PageBlock? || bs[0].Stray?) && Accepted(parse, handler, bs[0])
    ensures Process(parse, handler, bs, lineNo, handled)
         == Process(parse, handler, bs[1..], lineNo + 1, handled + PageOf(parse, bs[0]))
  {
    if bs[0].Stray? {
      assert handled + PageOf(parse, bs[0]) == handled;
    }
  }

  /** An accepted block as the last one: the counter moves once, its page
      (if any) is handled, and the run finishes exactly on `</mediawiki>`. */
  lemma ProcessLast(parse: string -> Option<Element>, handler: Element -> Option<Error>,
                    b: Block, lineNo: int, handled: seq<Element>)
    requires Accepted(parse, handler, b)
    ensures Process(parse, handler, [b], lineNo, handled)
         == Trace(lineNo + 1, handled + PageOf(parse, b), if b.EndOfDump? then Finished else Incomplete)
  {
    assert [b][1..] == [];
  }

  function CountPageBlocks(bs: seq<Block>): nat
  {
    if bs == [] then 0 else (if bs[0].PageBlock? then 1 else 0) + CountPageBlocks(bs[1..])
  }

  /** When every page is accepted, the counter moves once per block, each
      page block is handed to `handle_page` exactly once and in order, and
      the run finishes exactly when the last block is `</mediawiki>`. */
  lemma {:induction false} ProcessAccepted(parse: string -> Option<Element>, handler: Element -> Option<Error>,
                                           bs: seq<Block>, lineNo: int, handled: seq<Element>)
    requires forall i :: 0 <= i < |bs| ==> Accepted(parse, handler, bs[i])
    requires forall i :: 0 <= i < |bs| - 1 ==> bs[i].PageBlock? || bs[i].Stray?
    ensures Process(parse, handler, bs, lineNo, handled) ==
      Trace(lineNo + |bs|, handled + Pages(parse, bs),
            if bs != [] && bs[|bs| - 1].EndOfDump? then Finished else Incomplete)
    ensures |Pages(parse, bs)| == CountPageBlocks(bs)
  {
    if bs != [] {
      assert Pages(parse, bs) == PageOf(parse, bs[0]) + Pages(parse, bs[1..]);
      var rest := bs[1..];
      if |bs| > 1 {
        ProcessStep(parse, handler, bs, lineNo, handled);
        ProcessAccepted(parse, handler, rest, lineNo + 1, handled + PageOf(parse, bs[0]));
        assert handled + PageOf(parse, bs[0]) + Pages(parse, rest) == handled + (PageOf(parse, bs[0]) + Pages(parse, rest));
      } else {
        assert bs == [bs[0]];
        ProcessLast(parse, handler, bs[0], lineNo, handled);
      }
    }
  }

  /** The run raised at block `k`: every earlier block was accepted and none
      was a terminator, block `k` is a page that did not parse or whose hook
      raised, `k + 1` blocks moved the counter and exactly the earlier pages
      were handled. */
  predicate RaisedAt(parse: string -> Option<Element>, handler: Element -> Option<Error>,
                     bs: seq<Block>, lineNo: int, handled: seq<Element>, k: nat, t: Trace)
  {
    && k < |bs| && bs[k].PageBlock? && !Accepted(parse, handler, bs[k])
    && (forall i :: 0 <= i < k ==> Accepted(parse, handler, bs[i]) && (bs[i].PageBlock? || bs[i].Stray?))
    && t.lineNo == lineNo + k + 1
    && t.handled == handled + Pages(parse, bs[..k])
  }

  /** An accepted page or ignored line in front of a run that raised at
      block `k` makes a run that raised at block `k + 1`. */
  lemma RaisedAtCons(parse: string -> Option<Element>, handler: Element -> Option<Error>,
                     bs: seq<Block>, lineNo: int, handled: seq<Element>, k: nat, t: Trace)
    requires bs != [] && (bs[0].PageBlock? || bs[0].Stray?) && Accepted(parse, handler, bs[0])
    requires RaisedAt(parse, handler, bs[1..], lineNo + 1, handled + PageOf(parse, bs[0]), k, t)
    ensures RaisedAt(parse, handler, bs, lineNo, handled, k + 1, t)
  {
    var pre := bs[..k + 1];
    assert pre[0] == bs[0] && pre[1..] == bs[1..][..k];
    assert Pages(parse, pre) == PageOf(parse, bs[0]) + Pages(parse, bs[1..][..k]);
    forall i | 0 < i < k + 1
      ensures Accepted(parse, handler, bs[i]) && (bs[i].PageBlock? || bs[i].Stray?)
    {
      assert bs[i] == bs[1..][i - 1];
    }
  }

  /** A run that raised did so at some block, as `RaisedAt` describes. */
  lemma {:induction false} ProcessRaised(parse: string -> Option<Element>, handler: Element -> Option<Error>,
                                         bs: seq<Block>, lineNo: int, handled: seq<Element>)
    requires Process(parse, handler, bs, lineNo, handled).outcome.Raised?
    ensures exists k: nat :: RaisedAt(parse, handler, bs, lineNo, handled, k, Process(parse, handler, bs, lineNo, handled))
  {
    var t := Process(parse, handler, bs, lineNo, handled);
    if !Accepted(parse, handler, bs[0]) {
      assert bs[..0] == [];
      assert RaisedAt(parse, handler, bs, lineNo, handled, 0, t);
    } else {
      var page := PageOf(parse, bs[0]);
      ProcessStep(parse, handler, bs, lineNo, handled);
      ProcessRaised(parse, handler, bs[1..], lineNo + 1, handled + page);
      var k: nat :| RaisedAt(parse, handler, bs[1..], lineNo + 1, handled + page, k, t);
      RaisedAtCons(parse, handler, bs, lineNo, handled, k, t);
    }
  }

  /** Whatever happens, the counter never goes down, rises by at most one per
      block, by at least one per handled page, and handled pages are only
      ever appended. */
  lemma {:induction false} ProcessMonotone(parse: string -> Option<Element>, handler: Element -> Option<Error>,
                                           bs: seq<Block>, lineNo: int, handled: seq<Element>)
    ensures var t := Process(parse, handler, bs, lineNo, handled);
      && lineNo <= t.lineNo <= lineNo + |bs|
      && handled <= t.handled
      && |t.handled| - |handled| <= t.lineNo - lineNo
  {
    if bs != [] && (bs[0].Stray? || bs[0].PageBlock?) && Accepted(parse, handler, bs[0]) {
      var page := PageOf(parse, bs[0]);
      ProcessStep(parse, handler, bs, lineNo, handled);
      ProcessMonotone(parse, handler, bs[1..], lineNo + 1, handled + page);
      var t := Process(parse, handler, bs[1..], lineNo + 1, handled + page);
      assert handled == t.handled[..|handled|] by {
        assert handled + page == t.handled[..|handled + page|];
        assert (handled + page)[..|handled|] == handled;
      }
    }
  }

  /** In a tiling, only the last block can be a terminator. */
  lemma {:induction false} TiledContinues(bs: seq<Block>, pos: nat, n: nat)
    requires Tiled(bs, pos, n)
    ensures forall i :: 0 <= i < |bs| - 1 ==> bs[i].PageBlock? || bs[i].Stray?
    decreases |bs|
  {
    if |bs| > 1 {
      TiledContinues(bs[1..], pos + Size(bs[0]), n);
      forall i | 0 < i < |bs| - 1 ensures bs[i].PageBlock? || bs[i].Stray? {
        assert bs[i] == bs[1..][i - 1];
      }
    }
  }

  /** A run over blocks where only the last can be a terminator raised
      unless every block was accepted. */
  lemma {:induction false} ProcessNotRaised(parse: string -> Option<Element>, handler: Element -> Option<Error>,
                                            bs: seq<Block>, lineNo: int, handled: seq<Element>)
    requires forall i :: 0 <= i < |bs| - 1 ==> bs[i].PageBlock? || bs[i].Stray?
    requires !Process(parse, handler, bs, lineNo, handled).outcome.Raised?
    ensures forall i :: 0 <= i < |bs| ==> Accepted(parse, handler, bs[i])
  {
    if |bs| > 1 {
      assert Accepted(parse, handler, bs[0]);
      ProcessStep(parse, handler, bs, lineNo, handled);
      ProcessNotRaised(parse, handler, bs[1..], lineNo + 1, handled + PageOf(parse, bs[0]));
      forall i | 0 < i < |bs| ensures Accepted(parse, handler, bs[i]) {
        assert bs[i] == bs[1..][i - 1];
      }
    }
  }

  /** The main loop from line `pos`, seen from its blocks: they tile the
      rest of the input; the counter moves by at most one per block and
      never goes down; pages are only appended; and a run that did not raise
      moved the counter once per block, handed every page block to
      `handle_page` once and in order, and finished exactly when its last
      block is `</mediawiki>`. */
  lemma MainLoopRun(parse: string -> Option<Element>, handler: Element -> Option<Error>,
                    input: seq<string>, view: seq<string>, pos: nat, lineNo: int, handled: seq<Element>)
    requires |view| == |input|
    ensures var bs := Blocks(input, view, pos);
      var t := Process(parse, handler, bs, lineNo, handled);
      && Tiled(bs, pos, |input|)
      && (forall b :: b in bs ==> WellFormed(input, view, b))
      && lineNo <= t.lineNo <= lineNo + |bs|
      && handled <= t.handled
      && (!t.outcome.Raised? ==>
            && t.lineNo == lineNo + |bs|
            && t.handled == handled + Pages(parse, bs)
            && |Pages(parse, bs)| == CountPageBlocks(bs)
            && (t.outcome == Finished <==> bs != [] && bs[|bs| - 1].EndOfDump?))
  {
    var bs := Blocks(input, view, pos);
    BlocksTile(input, view, pos);
    BlocksWellFormed(input, view, pos);
    ProcessMonotone(parse, handler, bs, lineNo, handled);
    TiledContinues(bs, pos, |input|);
    if !Process(parse, handler, bs, lineNo, handled).outcome.Raised? {
      ProcessNotRaised(parse, handler, bs, lineNo, handled);
      ProcessAccepted(parse, handler, bs, lineNo, handled);
    }
  }

  /** The namespace table `parse_site_info` builds from the `namespace`
      elements, in document order: `key` attribute to text. */
  function NamespaceTable(elems: seq<Element>): map<Option<string>, Option<string>>
  {
    if |elems| == 0 then map[]
    else NamespaceTable(elems[..|elems| - 1])[KeyOf(elems[|elems| - 1]) := elems[|elems| - 1].text]
  }

  /** The table has an entry for exactly the keys that occur. */
  lemma {:induction false} NamespaceTableKeys(elems: seq<Element>)
    ensures forall k :: k in NamespaceTable(elems) <==> exists i :: 0 <= i < |elems| && KeyOf(elems[i]) == k
  {
    if |elems| > 0 {
      var n := |elems|;
      var init := elems[..n - 1];
      NamespaceTableKeys(init);
      assert forall i :: 0 <= i < n - 1 ==> init[i] == elems[i];
    }
  }

  /** A later element with the same key overwrites an earlier one: the
      entry holds the text of the last element with that key. */
  lemma {:induction false} NamespaceTableLast(elems: seq<Element>, i: nat)
    requires i < |elems| && LastWithKey(elems, i)
    ensures KeyOf(elems[i]) in NamespaceTable(elems)
    ensures NamespaceTable(elems)[KeyOf(elems[i])] == elems[i].text
  {
    var n := |elems|;
    if i < n - 1 {
      var init := elems[..n - 1];
      assert init[i] == elems[i];
      assert forall j :: i < j < |init| ==> init[j] == elems[j];
      NamespaceTableLast(init, i);
    }
  }

  /** No later element has the same key as `elems[i]`. */
  predicate LastWithKey(elems: seq<Element>, i: nat)
    requires i < |elems|
  {
    forall j :: i < j < |elems| ==> KeyOf(elems[j]) != KeyOf(elems[i])
  }

  /** `namespace.get("key")`. */
  function KeyOf(e: Element): Option<string>
  {
    Get(e, "key")
  }

  /** `find(tag).text`, where a missing element raises `AttributeError`. */
  function TextOf(e: Element, tag: string): Result<Option<string>>
  {
    match Find(e, tag)
    case None => Err(AttributeError)
    case Some(c) => Ok(c.text)
  }

  /** `.text` of a missing child raises `AttributeError`; otherwise it is
      the text of the first child with that tag. */
  lemma TextOfSpec(e: Element, tag: string)
    ensures var r := TextOf(e, tag);
      && (r.Err? <==> forall i :: 0 <= i < |e.children| ==> e.children[i].tag != tag)
      && (r.Err? ==> r.error == AttributeError)
      && (r.Ok? ==> exists i :: 0 <= i < |e.children| && e.children[i].tag == tag && e.children[i].text == r.value
                                && NoneBefore(e.children, tag, i))
  {
  }

  /** The generator comparison: a different generator name is only logged; a
      generator element without text makes the log message `str + None`,
      which raises `TypeError`. */
  function GeneratorCheck(c: Config, generator: Option<string>): (r: Option<Error>)
    ensures r.Some? <==> generator.None?
    ensures r.Some? ==> r.value == TypeError
  {
    if generator == Some(c.generator) then None
    else if generator.None? then Some(TypeError)
    else None
  }

  /** The case in which `parse_site_info` logs the generator warning. */
  predicate GeneratorWarning(c: Config, generator: Option<string>)
  {
    generator.Some? && generator.value != c.generator
  }

  /** The instance attributes `parse_site_info` assigns. */
  datatype SiteFields = SiteFields(
    namespaces: Attr<map<Option<string>, Option<string>>>,
    generator: Attr<Option<string>>,
    base: Attr<Option<string>>,
    caseRule: Attr<Option<string>>,
    sitename: Attr<Option<string>>)

  /** The logging hook of the base class: `page.find("title").text` raises
      `AttributeError` when the page has no title. */
  function LogTitle(page: Element): (r: Option<Error>)
    ensures r.None? <==> exists i :: 0 <= i < |page.children| && page.children[i].tag == "title"
    ensures r.Some? ==> r.value == AttributeError
  {
    if TextOf(page, "title").Err? then Some(AttributeError) else None
  }

  /** The attributes after a step of `parse_site_info`, and the exception
      that ended it, if any. */
  datatype SiteStep = SiteStep(fields: SiteFields, error: Option<Error>)

  /** Where `execute` stands once the schema line and the site-info block
      are done: stopped with an outcome, or entering the main loop at line
      `pos` with the attributes `fields`. */
  datatype Stage = Stopped(fields: SiteFields, outcome: Outcome) | EnterMainLoop(fields: SiteFields, pos: nat)

  /** The attributes and the main-loop trace at the end of `execute`. */
  datatype RunResult = RunResult(fields: SiteFields, trace: Trace)

  /** `siteinfo.find("namespaces")` and the `if not namespaces` check: a
      missing element and one without children both raise. */
  function NamespacesOf(si: Element): (r: Result<Element>)
    ensures r.Ok? <==> Find(si, "namespaces").Some? && Truthy(Find(si, "namespaces").value)
    ensures r.Ok? ==> r.value == Find(si, "namespaces").value && |r.value.children| > 0
    ensures r.Err? ==> r.error == ParseError(NoNamespaces)
  {
    match Find(si, "namespaces")
    case None => Err(ParseError(NoNamespaces))
    case Some(ns) => if Truthy(ns) then Ok(ns) else Err(ParseError(NoNamespaces))
  }

  /** `siteinfo.find("generator").text`, where the `AttributeError` of a
      missing element becomes `ParseError("No siteinfo generator")`. */
  function GeneratorOf(si: Element): (r: Result<Option<string>>)
    ensures r.Err? <==> Find(si, "generator").None?
    ensures r.Err? ==> r.error == ParseError(NoGenerator)
    ensures r.Ok? ==> r.value == Find(si, "generator").value.text
  {
    match Find(si, "generator")
    case None => Err(ParseError(NoGenerator))
    case Some(g) => Ok(g.text)
  }

  /** The last three assignments of `parse_site_info`, in order: `base`,
      `case` and `sitename`; the first missing element raises
      `AttributeError` and leaves the later attributes as they were. */
  function SiteNames(si: Element, s: SiteFields): SiteStep
  {
    match TextOf(si, "base")
    case Err(e) => SiteStep(s, Some(e))
    case Ok(b) =>
      var s1 := s.(base := Set(b));
      match TextOf(si, "case")
      case Err(e) => SiteStep(s1, Some(e))
      case Ok(cr) =>
        var s2 := s1.(caseRule := Set(cr));
        match TextOf(si, "sitename")
        case Err(e) => SiteStep(s2, Some(e))
        case Ok(n) => SiteStep(s2.(sitename := Set(n)), None)
  }

  /** The names step raises `AttributeError` exactly when one of the three
      elements is missing, touches neither the namespace table nor the
      generator, sets all three names when it succeeds, and changes nothing
      when `base` is missing. */
  lemma SiteNamesSpec(si: Element, s: SiteFields)
    ensures var r := SiteNames(si, s);
      && (r.error.None? <==> TextOf(si, "base").Ok? && TextOf(si, "case").Ok? && TextOf(si, "sitename").Ok?)
      && (r.error.Some? ==> r.error.value == AttributeError)
      && r.fields.namespaces == s.namespaces && r.fields.generator == s.generator
      && (r.error.None? ==>
            && r.fields.base == Set(TextOf(si, "base").value)
            && r.fields.caseRule == Set(TextOf(si, "case").value)
            && r.fields.sitename == Set(TextOf(si, "sitename").value))
      && (TextOf(si, "base").Err? ==> r.fields == s)
  {
  }

  /** The main loop at line `pos` is one turn on the block that starts
      there, then, unless that turn stops the run, the main loop at the
      line after the block. */
  lemma ProcessTurn(parse: string -> Option<Element>, handler: Element -> Option<Error>,
                    input: seq<string>, view: seq<string>, pos: nat, n: int, h: seq<Element>)
    requires |view| == |input| && pos < |input|
    ensures Process(parse, handler, Blocks(input, view, pos), n, h) ==
      match StepBlock(parse, handler, NextBlock(input, view, pos), n, h)
      case Stop(t) => t
      case Go(next, l, hs) => Process(parse, handler, Blocks(input, view, next), l, hs)
  {
    var bs := Blocks(input, view, pos);
    var b := NextBlock(input, view, pos);
    assert bs[0] == b;
    if b.PageBlock? || b.Stray? {
      assert bs[1..] == Blocks(input, view, pos + Size(b));
    }
  }

  /** At the end of the input the main loop waits for ever. */
  lemma MainStepEof(parse: string -> Option<Element>, handler: Element -> Option<Error>,
                    input: seq<string>, view: seq<string>, pos: nat, n: int, h: seq<Element>)
    requires |view| == |input| && pos >= |input|
    ensures Process(parse, handler, Blocks(input, view, pos), n, h) == Trace(n, h, Incomplete)
  {
  }

  /** The first match is the one before which nothing matched. */
  lemma {:induction false} FirstMatchAt(view: seq<string>, from: nat, j: nat, marker: string)
    requires from <= j < |view| && view[j] == marker && NoMatchIn(view, from, j, marker)
    ensures FirstMatch(view, from, marker) == Some(j)
    decreases j - from
  {
    if from < j {
      FirstMatchAt(view, from + 1, j, marker);
    }
  }

  /** The site-info loop of `execute`: after the schema line, take the
      stripped lines one at a time and collect them until one is
      `</siteinfo>`. `view` holds the stripped form of every input line.
      `None` stands for the loop that waits for ever at the end of the
      input. */
  method ReadSiteInfo(input: seq<string>, view: seq<string>) returns (r: Option<seq<string>>)
    requires |input| > 0 && |view| == |input| && view[0] != "</siteinfo>"
    ensures r == SiteInfoBlock(view)
  {
    var ln := view[0];
    var lines: seq<string> := [];
    var pos := 1;
    while ln != "</siteinfo>"
      invariant 1 <= pos <= |input|
      invariant lines == view[1..pos]
      invariant ln == view[pos - 1]
      invariant NoMatchIn(view, 1, pos - 1, "</siteinfo>")
      decreases |input| - pos
    {
      if pos == |input| {
        assert NoMatchIn(view, 1, |view|, "</siteinfo>");
        return None;
      }
      ln := view[pos];
      lines := lines + [ln];
      pos := pos + 1;
    }
    FirstMatchAt(view, 1, pos - 1, "</siteinfo>");
    return Some(lines);
  }

  /** The page loop of `execute`, entered on a top-level `<page>` at index
      `at`: keep the stripped `<page>`, then collect raw lines until one
      strips to `</page>`. `view` holds the stripped form of every input
      line; `closed` is false when the input ends first. */
  method ReadPage(input: seq<string>, view: seq<string>, at: nat) returns (lines: seq<string>, closed: bool)
    requires at < |input| && |view| == |input| && view[at] == "<page>"
    ensures var m := FirstMatch(view, at + 1, "</page>");
      && (closed <==> m.Some?)
      && (closed ==> lines == [view[at]] + input[at + 1..m.value + 1])
  {
    var ln := view[at];
    lines := [ln];
    var pos := at + 1;
    while ln != "</page>"
      invariant at + 1 <= pos <= |input|
      invariant |lines| == pos - at && lines[0] == view[at]
      invariant forall k :: at < k < pos ==> lines[k - at] == input[k]
      invariant ln == view[pos - 1]
      invariant NoMatchIn(view, at + 1, pos - 1, "</page>")
      decreases |input| - pos
    {
      if pos == |input| {
        assert NoMatchIn(view, at + 1, |view|, "</page>");
        return lines, false;
      }
      lines := lines + [input[pos]];
      ln := view[pos];
      pos := pos + 1;
    }
    FirstMatchAt(view, at + 1, pos - 1, "</page>");
    assert lines == [view[at]] + input[at + 1..pos];
    return lines, true;
  }
}
