/** `expand_includes` (deploy/render-nginx-config.py): the recursive inliner, with its
    cycle and depth guards, over the conditionals' stack machine. */
module Includes {
  import opened TemplateLines
  import opened Conditionals
  import opened Wrappers

  type Path = string

  const MAX_INCLUDE_DEPTH := 10

  /** The files that exist, what `(root / rel).resolve()` names, and which resolved paths
      lie under the root. */
  datatype Tree = Tree(files: map<Path, string>, resolve: string -> Path, inside: Path -> bool)

  /** The same tree under fixed flags, as the inliner meets it: what each file's live lines
      are, or why it has none. */
  datatype Site = Site(
    live: Path -> Result<seq<Token>, ExpandError>,
    isFile: Path -> bool, resolve: string -> Path, inside: Path -> bool)

  function Under(tree: Tree, flags: Flags): Site {
    Site(path => LiveLines(tree, flags, path), path => path in tree.files, tree.resolve, tree.inside)
  }

  datatype ExpandError =
    | TooDeep(path: Path, chain: seq<Path>)
    | Circular(chain: seq<Path>)
    | Unreadable(path: Path)
    | BadConditional(path: Path, error: StripError)
    | NoSuchSnippet(path: Path, lineno: nat, rel: string)
    | Escapes(path: Path, lineno: nat, rel: string)

  // ── one file ──────────────────────────────────────────────────────────────

  function Texts(tokens: seq<Token>): seq<string> {
    seq(|tokens|, i requires 0 <= i < |tokens| => tokens[i].text)
  }

  /** `strip_conditionals` on a whole text. */
  function Stripped(text: string, flags: Flags): Result<string, StripError> {
    match Strip(Tokens(SplitLines(text)), flags, 0, [])
    case Ok(out) => Ok(Joined(Texts(out)))
    case Err(e) => Err(e)
  }

  /** The lines `expand_includes` scans for markers. */
  function LiveLines(tree: Tree, flags: Flags, path: Path): Result<seq<Token>, ExpandError> {
    if path !in tree.files then Err(Unreadable(path))
    else
      match Stripped(tree.files[path], flags)
      case Ok(text) => Ok(Tokens(SplitLines(text)))
      case Err(e) => Err(BadConditional(path, e))
  }

  /** "\n".join(out) + "\n", which for no lines is one blank line. */
  function Closed(out: seq<string>): string {
    if out == [] then "\n" else Joined(out)
  }

  function Indented(indent: string, lines: seq<string>): seq<string> {
    seq(|lines|, i requires 0 <= i < |lines| => if lines[i] == "" then "" else indent + lines[i])
  }

  /** What an include line becomes: the snippet's lines, at the marker's indentation. */
  function Spliced(marker: string, snippet: string): seq<string> {
    Indented(marker[..Lead(marker)], SplitLines(snippet))
  }

  // ── the inliner ───────────────────────────────────────────────────────────

  function Expand(site: Site, path: Path, depth: nat, stack: seq<Path>): Result<string, ExpandError>
    decreases if depth > MAX_INCLUDE_DEPTH then 0 else MAX_INCLUDE_DEPTH + 1 - depth, 1, 0
  {
    if depth > MAX_INCLUDE_DEPTH then Err(TooDeep(path, stack))
    else if path in stack then Err(Circular(stack + [path]))
    else
      match site.live(path)
      case Err(e) => Err(e)
      case Ok(lines) =>
        match ExpandLines(site, path, depth, stack, lines, 0)
        case Err(e) => Err(e)
        case Ok(out) => Ok(Closed(out))
  }

  function ExpandLines(
      site: Site, path: Path, depth: nat, stack: seq<Path>, lines: seq<Token>, lineno: nat)
      : Result<seq<string>, ExpandError>
    requires depth <= MAX_INCLUDE_DEPTH
    decreases MAX_INCLUDE_DEPTH + 1 - depth, 0, |lines|
  {
    if lines == [] then Ok([])
    else
      match ExpandLine(site, path, depth, stack, lines[0], lineno + 1)
      case Err(e) => Err(e)
      case Ok(head) =>
        match ExpandLines(site, path, depth, stack, lines[1..], lineno + 1)
        case Err(e) => Err(e)
        case Ok(tail) => Ok(head + tail)
  }

  /** One line: itself, or the indented lines of the snippet it includes. */
  function ExpandLine(
      site: Site, path: Path, depth: nat, stack: seq<Path>, line: Token, lineno: nat)
      : Result<seq<string>, ExpandError>
    requires depth <= MAX_INCLUDE_DEPTH
    decreases MAX_INCLUDE_DEPTH + 1 - depth, 0, 0
  {
    match line.kind
    case Include(rel) =>
      var target := site.resolve(rel);
      if !site.isFile(target) then Err(NoSuchSnippet(path, lineno, rel))
      else if !site.inside(target) then Err(Escapes(path, lineno, rel))
      else
        (match Expand(site, target, depth + 1, stack + [path])
         case Err(e) => Err(e)
         case Ok(nested) => Ok(Spliced(line.text, nested)))
    case _ => Ok([line.text])
  }

  /** Reading one file: the stack machine's loop on its lines is what `LiveLines` says. */
  method ReadLive(tree: Tree, flags: Flags, path: Path) returns (r: Result<seq<Token>, ExpandError>)
    ensures r == LiveLines(tree, flags, path)
  {
    if path !in tree.files { return Err(Unreadable(path)); }
    var stripped := StripConditionals(Tokens(SplitLines(tree.files[path])), flags);
    if stripped.Err? { return Err(BadConditional(path, stripped.error)); }
    r := Ok(Tokens(SplitLines(Joined(Texts(stripped.value)))));
  }

  /** The recursion with its appending loop, collecting the chain of files open at each
      activation that got past the two guards. */
  method ExpandIncludes(site: Site, path: Path, depth: nat, stack: seq<Path>)
      returns (r: Result<string, ExpandError>, chains: seq<seq<Path>>)
    requires depth == |stack| && Distinct(stack)
    ensures r == Expand(site, path, depth, stack)
    ensures forall chain :: chain in chains ==> Distinct(chain) && |chain| <= MAX_INCLUDE_DEPTH + 1
    decreases if depth > MAX_INCLUDE_DEPTH then 0 else MAX_INCLUDE_DEPTH + 1 - depth, 1
  {
    chains := [];
    if depth > MAX_INCLUDE_DEPTH { return Err(TooDeep(path, stack)), chains; }
    if path in stack { return Err(Circular(stack + [path])), chains; }
    chains := [stack + [path]];
    var live := site.live(path);
    if live.Err? { return Err(live.error), chains; }
    var out, deeper := ExpandEachLine(site, path, depth, stack, live.value);
    chains := chains + deeper;
    if out.Err? { return Err(out.error), chains; }
    r := Ok(Closed(out.value));
  }

  method ExpandEachLine(site: Site, path: Path, depth: nat, stack: seq<Path>, lines: seq<Token>)
      returns (r: Result<seq<string>, ExpandError>, chains: seq<seq<Path>>)
    requires depth == |stack| <= MAX_INCLUDE_DEPTH && Distinct(stack) && path !in stack
    ensures r == ExpandLines(site, path, depth, stack, lines, 0)
    ensures forall chain :: chain in chains ==> Distinct(chain) && |chain| <= MAX_INCLUDE_DEPTH + 1
    decreases MAX_INCLUDE_DEPTH + 1 - depth, 0, 1
  {
    var out: seq<string> := [];
    var i := 0;
    chains := [];
    assert lines[0..] == lines;
    PrefixedNothing(ExpandLines(site, path, depth, stack, lines, 0));
    while i < |lines|
      invariant i <= |lines|
      invariant ExpandLines(site, path, depth, stack, lines, 0)
             == Prefixed(out, ExpandLines(site, path, depth, stack, lines[i..], i))
      invariant forall chain :: chain in chains ==> Distinct(chain) && |chain| <= MAX_INCLUDE_DEPTH + 1
    {
      assert lines[i..][0] == lines[i] && lines[i..][1..] == lines[i + 1..];
      ExpandsOneMore(site, path, depth, stack, out, lines[i..], i);
      var head, deeper := ExpandOneLine(site, path, depth, stack, lines[i], i + 1);
      chains := chains + deeper;
      if head.Err? { return Err(head.error), chains; }
      out := out + head.value;
      i := i + 1;
    }
    assert lines[i..] == [] && out + [] == out;
    r := Ok(out);
  }

  method ExpandOneLine(
      site: Site, path: Path, depth: nat, stack: seq<Path>, line: Token, lineno: nat)
      returns (r: Result<seq<string>, ExpandError>, chains: seq<seq<Path>>)
    requires depth == |stack| <= MAX_INCLUDE_DEPTH && Distinct(stack) && path !in stack
    ensures r == ExpandLine(site, path, depth, stack, line, lineno)
    ensures forall chain :: chain in chains ==> Distinct(chain) && |chain| <= MAX_INCLUDE_DEPTH + 1
    decreases MAX_INCLUDE_DEPTH + 1 - depth, 0, 0
  {
    chains := [];
    match line.kind
    case Include(rel) =>
      var target := site.resolve(rel);
      if !site.isFile(target) { return Err(NoSuchSnippet(path, lineno, rel)), chains; }
      if !site.inside(target) { return Err(Escapes(path, lineno, rel)), chains; }
      var nested, deeper := ExpandIncludes(site, target, depth + 1, stack + [path]);
      chains := deeper;
      if nested.Err? { return Err(nested.error), chains; }
      r := Ok(Spliced(line.text, nested.value));
    case _ =>
      r := Ok([line.text]);
  }

  function Prefixed(head: seq<string>, r: Result<seq<string>, ExpandError>): Result<seq<string>, ExpandError> {
    match r
    case Ok(tail) => Ok(head + tail)
    case Err(_) => r
  }

  /** The loop's step: what is done, then one more line, then what is left. */
  lemma ExpandsOneMore(
      site: Site, path: Path, depth: nat, stack: seq<Path>, out: seq<string>, lines: seq<Token>, lineno: nat)
    requires depth <= MAX_INCLUDE_DEPTH && lines != []
    ensures var line := ExpandLine(site, path, depth, stack, lines[0], lineno + 1);
            Prefixed(out, ExpandLines(site, path, depth, stack, lines, lineno))
            == (match line
                case Err(e) => Err(e)
                case Ok(head) =>
                  Prefixed(out + head, ExpandLines(site, path, depth, stack, lines[1..], lineno + 1)))
  {
    var line := ExpandLine(site, path, depth, stack, lines[0], lineno + 1);
    var tail := ExpandLines(site, path, depth, stack, lines[1..], lineno + 1);
    if line.Ok? && tail.Ok? { assert out + (line.value + tail.value) == (out + line.value) + tail.value; }
  }

  lemma PrefixedNothing(r: Result<seq<string>, ExpandError>)
    ensures Prefixed([], r) == r
  {
    if r.Ok? { assert [] + r.value == r.value; }
  }

  predicate Distinct(chain: seq<Path>) {
    forall i, j :: 0 <= i < j < |chain| ==> chain[i] != chain[j]
  }

  // ── a successful result is clean ──────────────────────────────────────────

  /** Lines that are no marker of any kind, and that a re-read finds again. */
  predicate Clean(lines: seq<string>) {
    forall k :: 0 <= k < |lines| ==> Unbroken(lines[k]) && Classify(lines[k]) == Text
  }

  predicate Genuine(line: Token) {
    line.kind == Classify(line.text) && Unbroken(line.text) && !IsConditional(line.kind)
  }

  ghost predicate GenuineSite(site: Site) {
    forall path :: site.live(path).Ok? ==>
      forall k :: 0 <= k < |site.live(path).value| ==> Genuine(site.live(path).value[k])
  }

  lemma LiveLinesAreGenuine(tree: Tree, flags: Flags)
    ensures GenuineSite(Under(tree, flags))
  {
    forall path, k | LiveLines(tree, flags, path).Ok? && 0 <= k < |LiveLines(tree, flags, path).value|
      ensures Genuine(LiveLines(tree, flags, path).value[k])
    {
      var tokens := Tokens(SplitLines(tree.files[path]));
      var out := Strip(tokens, flags, 0, []).value;
      NoConditionalSurvives(tokens, flags, 0, []);
      forall i | 0 <= i < |out| ensures Unbroken(Texts(out)[i]) && !IsConditional(Classify(Texts(out)[i])) {
        assert out[i] in tokens;
      }
      SplitOfJoined(Texts(out));
    }
  }

  lemma IndentedIsClean(line: string, lines: seq<string>)
    requires Unbroken(line) && Clean(lines)
    ensures Clean(Indented(line[..Lead(line)], lines))
  {
    var indent := line[..Lead(line)];
    forall k | 0 <= k < |lines|
      ensures Unbroken(Indented(indent, lines)[k]) && Classify(Indented(indent, lines)[k]) == Text
    {
      IndentKeepsKind(indent, lines[k]);
    }
  }

  lemma {:induction false} ExpandIsClean(site: Site, path: Path, depth: nat, stack: seq<Path>)
    requires GenuineSite(site) && Expand(site, path, depth, stack).Ok?
    ensures var text := Expand(site, path, depth, stack).value;
            Clean(SplitLines(text)) && text == Joined(SplitLines(text)) && text != ""
    decreases if depth > MAX_INCLUDE_DEPTH then 0 else MAX_INCLUDE_DEPTH + 1 - depth, 1, 0
  {
    var lines := site.live(path).value;
    ExpandLinesIsClean(site, path, depth, stack, lines, 0);
    var out := ExpandLines(site, path, depth, stack, lines, 0).value;
    SplitOfJoined(out);
    if out == [] {
      SplitOfJoined([""]);
      assert Joined([""]) == "\n";
    }
  }

  lemma {:induction false} ExpandLinesIsClean(
      site: Site, path: Path, depth: nat, stack: seq<Path>, lines: seq<Token>, lineno: nat)
    requires GenuineSite(site)
    requires depth <= MAX_INCLUDE_DEPTH && ExpandLines(site, path, depth, stack, lines, lineno).Ok?
    requires forall k :: 0 <= k < |lines| ==> Genuine(lines[k])
    ensures Clean(ExpandLines(site, path, depth, stack, lines, lineno).value)
    decreases MAX_INCLUDE_DEPTH + 1 - depth, 0, |lines|
  {
    if lines != [] {
      if lines[0].kind.Include? {
        var target := site.resolve(lines[0].kind.rel);
        ExpandIsClean(site, target, depth + 1, stack + [path]);
        IndentedIsClean(lines[0].text, SplitLines(Expand(site, target, depth + 1, stack + [path]).value));
      }
      ExpandLinesIsClean(site, path, depth, stack, lines[1..], lineno + 1);
    }
  }

  lemma {:induction false} PlainLinesExpandToThemselves(
      site: Site, path: Path, depth: nat, stack: seq<Path>, lines: seq<Token>, lineno: nat)
    requires depth <= MAX_INCLUDE_DEPTH && forall k :: 0 <= k < |lines| ==> lines[k].kind == Text
    ensures ExpandLines(site, path, depth, stack, lines, lineno) == Ok(Texts(lines))
    decreases |lines|
  {
    if lines != [] {
      assert ExpandLine(site, path, depth, stack, lines[0], lineno + 1) == Ok([lines[0].text]);
      PlainLinesExpandToThemselves(site, path, depth, stack, lines[1..], lineno + 1);
      assert [lines[0].text] + Texts(lines[1..]) == Texts(lines);
    }
  }

  /** No line of a successful result is a marker at any indentation, so a file holding the
      result, in any tree and under any flags, expands to itself. */
  lemma ExpandingAgainChangesNothing(
      tree: Tree, flags: Flags, path: Path, again: Tree, otherFlags: Flags, saved: Path)
    requires Expand(Under(tree, flags), path, 0, []).Ok?
    requires saved in again.files && again.files[saved] == Expand(Under(tree, flags), path, 0, []).value
    ensures Clean(SplitLines(again.files[saved]))
    ensures Expand(Under(again, otherFlags), saved, 0, []) == Ok(again.files[saved])
  {
    LiveLinesAreGenuine(tree, flags);
    ExpandIsClean(Under(tree, flags), path, 0, []);
    var lines := SplitLines(again.files[saved]);
    PlainLinesPass(Tokens(lines), otherFlags, 0);
    assert Texts(Tokens(lines)) == lines;
    PlainLinesExpandToThemselves(Under(again, otherFlags), saved, 0, [], Tokens(lines), 0);
  }

  // ── what a successful result says ─────────────────────────────────────────

  /** A file's page: its lines in order, those that include a file standing for that one's page. */
  datatype Page = Page(path: Path, blocks: seq<Block>)

  datatype Block = Own(line: string) | From(marker: string, snippet: Page)

  predicate Depicts(site: Site, page: Page)
    decreases page
  {
    && site.live(page.path).Ok?
    && |page.blocks| == |site.live(page.path).value|
    && forall k :: 0 <= k < |page.blocks| ==> Shows(site, page.blocks[k], site.live(page.path).value[k])
  }

  predicate Shows(site: Site, block: Block, line: Token)
    decreases block
  {
    match block
    case Own(text) => !line.kind.Include? && text == line.text
    case From(marker, snippet) =>
      marker == line.text && IncludesAt(site, line, snippet.path) && Depicts(site, snippet)
  }

  /** What the page says: one blank line if it is empty, and otherwise its blocks in order. */
  function Lines(page: Page): (lines: seq<string>)
    ensures lines != []
    decreases page, |page.blocks| + 1
  {
    if page.blocks == [] then [""] else LinesOf(page, |page.blocks|)
  }

  function LinesOf(page: Page, n: nat): (lines: seq<string>)
    requires n <= |page.blocks|
    ensures |lines| >= n
    decreases page, n
  {
    if n == 0 then [] else LinesOf(page, n - 1) + BlockLines(page.blocks[n - 1])
  }

  function BlockLines(block: Block): (lines: seq<string>)
    ensures lines != []
    decreases block
  {
    match block
    case Own(line) => [line]
    case From(marker, snippet) =>
      var inner := Lines(snippet);
      seq(|inner|, j requires 0 <= j < |inner| => if inner[j] == "" then "" else marker[..Lead(marker)] + inner[j])
  }

  lemma {:induction false} ExpansionIsItsPage(site: Site, path: Path, depth: nat, stack: seq<Path>) returns (page: Page)
    requires GenuineSite(site) && Expand(site, path, depth, stack).Ok?
    ensures page.path == path && Depicts(site, page)
    ensures SplitLines(Expand(site, path, depth, stack).value) == Lines(page)
    decreases if depth > MAX_INCLUDE_DEPTH then 0 else MAX_INCLUDE_DEPTH + 1 - depth, 1
  {
    var lines := site.live(path).value;
    var blocks := LinesAreBlocks(site, path, depth, stack, lines, 0);
    page := Page(path, blocks);
    BlocksOfPage(page, |blocks|);
    assert blocks[..|blocks|] == blocks;
    ExpandLinesIsClean(site, path, depth, stack, lines, 0);
    if lines == [] {
      assert Joined([""]) == "\n";
      SplitOfJoined([""]);
    } else {
      SplitOfJoined(Lines(page));
    }
  }

  /** What these blocks say, one after the other. */
  function Flat(blocks: seq<Block>): seq<string> {
    if blocks == [] then [] else BlockLines(blocks[0]) + Flat(blocks[1..])
  }

  lemma {:induction false} FlatMore(blocks: seq<Block>, block: Block)
    ensures Flat(blocks + [block]) == Flat(blocks) + BlockLines(block)
  {
    if blocks == [] {
      assert [] + [block] == [block] && [block][1..] == [];
    } else {
      FlatMore(blocks[1..], block);
      assert (blocks + [block])[1..] == blocks[1..] + [block];
    }
  }

  lemma {:induction false} BlocksOfPage(page: Page, n: nat)
    requires n <= |page.blocks|
    ensures LinesOf(page, n) == Flat(page.blocks[..n])
    decreases n
  {
    if n > 0 {
      BlocksOfPage(page, n - 1);
      FlatMore(page.blocks[..n - 1], page.blocks[n - 1]);
      assert page.blocks[..n] == page.blocks[..n - 1] + [page.blocks[n - 1]];
    }
  }

  lemma {:induction false} LinesAreBlocks(
      site: Site, path: Path, depth: nat, stack: seq<Path>, lines: seq<Token>, lineno: nat) returns (blocks: seq<Block>)
    requires GenuineSite(site)
    requires depth <= MAX_INCLUDE_DEPTH && ExpandLines(site, path, depth, stack, lines, lineno).Ok?
    ensures |blocks| == |lines| && forall k :: 0 <= k < |lines| ==> Shows(site, blocks[k], lines[k])
    ensures ExpandLines(site, path, depth, stack, lines, lineno).value == Flat(blocks)
    decreases MAX_INCLUDE_DEPTH + 1 - depth, 0, |lines|
  {
    if lines == [] { return []; }
    var block := LineIsBlock(site, path, depth, stack, lines[0], lineno + 1);
    var rest := LinesAreBlocks(site, path, depth, stack, lines[1..], lineno + 1);
    blocks := [block] + rest;
    forall k | 0 <= k < |lines| ensures Shows(site, blocks[k], lines[k]) {
      if k > 0 { assert Shows(site, rest[k - 1], lines[1..][k - 1]); }
    }
  }

  lemma {:induction false} LineIsBlock(
      site: Site, path: Path, depth: nat, stack: seq<Path>, line: Token, lineno: nat) returns (block: Block)
    requires GenuineSite(site)
    requires depth <= MAX_INCLUDE_DEPTH && ExpandLine(site, path, depth, stack, line, lineno).Ok?
    ensures Shows(site, block, line) && BlockLines(block) == ExpandLine(site, path, depth, stack, line, lineno).value
    decreases MAX_INCLUDE_DEPTH + 1 - depth, 0, 0
  {
    if line.kind.Include? {
      var snippet := ExpansionIsItsPage(site, site.resolve(line.kind.rel), depth + 1, stack + [path]);
      block := From(line.text, snippet);
    } else {
      block := Own(line.text);
    }
  }

  /** A file has at most one page. */
  lemma {:induction false} OnePage(site: Site, a: Page, b: Page)
    requires Depicts(site, a) && Depicts(site, b) && a.path == b.path
    ensures a == b
    decreases a
  {
    var lines := site.live(a.path).value;
    forall k | 0 <= k < |lines| ensures a.blocks[k] == b.blocks[k] {
      assert Shows(site, a.blocks[k], lines[k]) && Shows(site, b.blocks[k], lines[k]);
      if a.blocks[k].From? { OnePage(site, a.blocks[k].snippet, b.blocks[k].snippet); }
    }
  }

  /** What a successful expansion gives is the template's page: its live lines in order, each
      include line replaced by the page of the file it includes. */
  lemma ExpandReadsAsThePage(tree: Tree, flags: Flags, path: Path)
    requires Expand(Under(tree, flags), path, 0, []).Ok?
    ensures exists page: Page :: page.path == path && Depicts(Under(tree, flags), page)
    ensures forall page: Page :: page.path == path && Depicts(Under(tree, flags), page) ==>
              Expand(Under(tree, flags), path, 0, []) == Ok(Joined(Lines(page)))
  {
    LiveLinesAreGenuine(tree, flags);
    ExpandIsClean(Under(tree, flags), path, 0, []);
    var own := ExpansionIsItsPage(Under(tree, flags), path, 0, []);
    forall page: Page | page.path == path && Depicts(Under(tree, flags), page) ensures page == own {
      OnePage(Under(tree, flags), page, own);
    }
  }

  /** The indentation of a line, and no more of it. */
  predicate IndentOf(line: string, indent: string) {
    indent <= line && Blank(indent) && (|indent| < |line| ==> !IsSpace(line[|indent|]))
  }

  lemma LeadIsTheIndent(line: string, indent: string)
    requires IndentOf(line, indent)
    ensures line[..Lead(line)] == indent
  {
    var n := Lead(line);
    assert forall i :: 0 <= i < |indent| ==> IsSpace(line[i]) by {
      assert forall i :: 0 <= i < |indent| ==> line[i] == indent[i];
    }
    assert forall i :: 0 <= i < n ==> IsSpace(line[i]) by {
      assert forall i :: 0 <= i < n ==> line[i] == line[..n][i];
    }
    assert n == |indent|;
  }

  lemma {:induction false} LinesBefore(page: Page, k: nat, n: nat)
    requires k <= n <= |page.blocks|
    ensures LinesOf(page, k) <= LinesOf(page, n)
    decreases n
  {
    if k < n { LinesBefore(page, k, n - 1); }
  }

  /** After the lines of the blocks before it, an included file's lines stand in order at the
      indentation of the line that includes it, empty lines left empty; an own line stands as it is. */
  lemma BlocksStandInOrder(page: Page, k: nat, indent: string)
    requires k < |page.blocks| && (page.blocks[k].From? ==> IndentOf(page.blocks[k].marker, indent))
    ensures var at := |LinesOf(page, k)|;
            match page.blocks[k]
            case Own(line) => at < |Lines(page)| && Lines(page)[at] == line
            case From(_, snippet) =>
              var inner := Lines(snippet);
              && at + |inner| <= |Lines(page)|
              && forall j :: 0 <= j < |inner| ==>
                   Lines(page)[at..at + |inner|][j] == if inner[j] == "" then "" else indent + inner[j]
  {
    LinesBefore(page, k + 1, |page.blocks|);
    StandsAt(Lines(page), LinesOf(page, k), BlockLines(page.blocks[k]));
    if page.blocks[k].From? { LeadIsTheIndent(page.blocks[k].marker, indent); }
  }

  lemma StandsAt(whole: seq<string>, before: seq<string>, shown: seq<string>)
    requires before + shown <= whole
    ensures |before| + |shown| <= |whole| && whole[|before|..|before| + |shown|] == shown
  {
    assert whole[..|before + shown|] == before + shown;
  }

  /** A file's live lines are the evaluation of the block tree its text renders; without such a
      tree, or without the file, there are none. */
  lemma LiveLinesAreTheTree(tree: Tree, flags: Flags, path: Path)
    ensures path !in tree.files ==> LiveLines(tree, flags, path) == Err(Unreadable(path))
    ensures path in tree.files ==>
      var tokens := Tokens(SplitLines(tree.files[path]));
      && (LiveLines(tree, flags, path).Ok? <==> Balanced(tokens, flags))
      && (LiveLines(tree, flags, path).Err? ==>
            LiveLines(tree, flags, path).error == BadConditional(path, Strip(tokens, flags, 0, []).error))
      && forall bs :: WellFormed(bs, flags.Keys) && Render(bs, []) == tokens ==>
           LiveLines(tree, flags, path) == Ok(Eval(bs, flags))
  {
    if path in tree.files {
      var tokens := Tokens(SplitLines(tree.files[path]));
      StripSucceedsExactlyOnTrees(tokens, flags);
      if Strip(tokens, flags, 0, []).Ok? { RereadLines(tokens, flags); }
      forall bs | WellFormed(bs, flags.Keys) && Render(bs, []) == tokens
        ensures LiveLines(tree, flags, path) == Ok(Eval(bs, flags))
      {
        StripEvaluatesTrees(bs, flags);
        assert Balanced(tokens, flags);
      }
    }
  }

  /** Joining the lines that survive and splitting them again changes nothing. */
  lemma RereadLines(tokens: seq<Token>, flags: Flags)
    requires Strip(tokens, flags, 0, []).Ok?
    requires forall i :: 0 <= i < |tokens| ==> tokens[i].kind == Classify(tokens[i].text) && Unbroken(tokens[i].text)
    ensures var out := Strip(tokens, flags, 0, []).value; Tokens(SplitLines(Joined(Texts(out)))) == out
  {
    var out := Strip(tokens, flags, 0, []).value;
    NoConditionalSurvives(tokens, flags, 0, []);
    forall i | 0 <= i < |out| ensures out[i].kind == Classify(out[i].text) && Unbroken(out[i].text) {
      assert out[i] in tokens;
    }
    SplitOfJoined(Texts(out));
  }

  // ── the include graph ─────────────────────────────────────────────────────

  /** `path` includes `target` on a line no dead branch hides. */
  predicate Reaches(site: Site, path: Path, target: Path) {
    && site.live(path).Ok?
    && var lines := site.live(path).value;
       exists k :: 0 <= k < |lines| && IncludesAt(site, lines[k], target)
  }

  predicate IncludesAt(site: Site, line: Token, target: Path) {
    line.kind.Include? && site.resolve(line.kind.rel) == target
  }

  predicate LiveChain(site: Site, chain: seq<Path>) {
    chain != [] && forall i :: 0 <= i < |chain| - 1 ==> Reaches(site, chain[i], chain[i + 1])
  }

  /** A chain of includes the guards let through: no file twice, at most eleven of them,
      each snippet inside the root, and the last one readable with balanced markers. */
  predicate Sound(site: Site, above: seq<Path>, chain: seq<Path>)
    requires chain != []
  {
    var last := chain[|chain| - 1];
    && Distinct(above + chain)
    && |above + chain| <= MAX_INCLUDE_DEPTH + 1
    && site.live(last).Ok?
    && (|chain| > 1 ==> site.isFile(last) && site.inside(last))
  }

  lemma {:induction false} EveryLineExpands(
      site: Site, path: Path, depth: nat, stack: seq<Path>, lines: seq<Token>, lineno: nat, k: nat)
    requires depth <= MAX_INCLUDE_DEPTH && k < |lines|
    requires ExpandLines(site, path, depth, stack, lines, lineno).Ok?
    ensures ExpandLine(site, path, depth, stack, lines[k], lineno + 1 + k).Ok?
    decreases k
  {
    if k > 0 { EveryLineExpands(site, path, depth, stack, lines[1..], lineno + 1, k - 1); }
  }

  /** The line the failure comes from, with every line before it expanded. */
  lemma {:induction false} FirstLineFails(
      site: Site, path: Path, depth: nat, stack: seq<Path>, lines: seq<Token>, lineno: nat)
      returns (k: nat)
    requires depth <= MAX_INCLUDE_DEPTH
    requires ExpandLines(site, path, depth, stack, lines, lineno).Err?
    ensures k < |lines| && ExpandLine(site, path, depth, stack, lines[k], lineno + 1 + k).Err?
    ensures ExpandLine(site, path, depth, stack, lines[k], lineno + 1 + k).error
         == ExpandLines(site, path, depth, stack, lines, lineno).error
    decreases |lines|
  {
    if ExpandLine(site, path, depth, stack, lines[0], lineno + 1).Err? { return 0; }
    k := FirstLineFails(site, path, depth, stack, lines[1..], lineno + 1);
    k := k + 1;
  }

  lemma {:induction false} IncludedExpands(
      site: Site, path: Path, depth: nat, stack: seq<Path>, target: Path)
    requires Expand(site, path, depth, stack).Ok? && Reaches(site, path, target)
    ensures site.isFile(target) && site.inside(target) && Expand(site, target, depth + 1, stack + [path]).Ok?
  {
    var lines := site.live(path).value;
    var k :| 0 <= k < |lines| && IncludesAt(site, lines[k], target);
    EveryLineExpands(site, path, depth, stack, lines, 0, k);
  }

  lemma {:induction false} FailsInInclude(site: Site, path: Path, depth: nat, stack: seq<Path>)
      returns (target: Path)
    requires Expand(site, path, depth, stack).Err?
    requires depth <= MAX_INCLUDE_DEPTH && path !in stack && site.live(path).Ok?
    ensures Reaches(site, path, target)
    ensures site.isFile(target) && site.inside(target) ==>
              Expand(site, target, depth + 1, stack + [path]).Err?
  {
    var lines := site.live(path).value;
    var k := FirstLineFails(site, path, depth, stack, lines, 0);
    target := site.resolve(lines[k].kind.rel);
    assert IncludesAt(site, lines[k], target);
  }

  lemma Link(site: Site, path: Path, chain: seq<Path>)
    requires LiveChain(site, chain) && Reaches(site, path, chain[0])
    ensures LiveChain(site, [path] + chain)
  {
  }

  lemma Unlink(site: Site, chain: seq<Path>)
    requires LiveChain(site, chain) && |chain| > 1
    ensures LiveChain(site, chain[1..]) && Reaches(site, chain[0], chain[1])
  {
  }

  lemma {:induction false} SuccessMeansSound(
      site: Site, depth: nat, stack: seq<Path>, chain: seq<Path>)
    requires LiveChain(site, chain) && depth == |stack| && Distinct(stack)
    requires Expand(site, chain[0], depth, stack).Ok?
    ensures Sound(site, stack, chain)
    decreases |chain|
  {
    if |chain| > 1 {
      Unlink(site, chain);
      IncludedExpands(site, chain[0], depth, stack, chain[1]);
      SuccessMeansSound(site, depth + 1, stack + [chain[0]], chain[1..]);
      assert stack + [chain[0]] + chain[1..] == stack + chain;
    }
  }

  lemma {:induction false} FailureHasUnsoundChain(
      site: Site, path: Path, depth: nat, stack: seq<Path>) returns (chain: seq<Path>)
    requires depth == |stack| && Distinct(stack)
    requires Expand(site, path, depth, stack).Err?
    ensures LiveChain(site, chain) && chain[0] == path && !Sound(site, stack, chain)
    decreases if depth > MAX_INCLUDE_DEPTH then 0 else MAX_INCLUDE_DEPTH + 1 - depth
  {
    chain := [path];
    if depth > MAX_INCLUDE_DEPTH || site.live(path).Err? { return; }
    if path in stack {
      var i :| 0 <= i < |stack| && stack[i] == path;
      assert (stack + chain)[i] == (stack + chain)[|stack|];
      return;
    }
    var target := FailsInInclude(site, path, depth, stack);
    var below := [target];
    if site.isFile(target) && site.inside(target) {
      below := FailureHasUnsoundChain(site, target, depth + 1, stack + [path]);
    }
    Link(site, path, below);
    chain := [path] + below;
    assert stack + [path] + below == stack + chain;
  }

  /** Expansion succeeds exactly when every chain of live includes starting at the
      template repeats no file, is no longer than the depth guard allows, stays inside
      the root, and ends in a readable file with balanced conditionals. */
  lemma SucceedsExactlyWhenEveryChainIsSound(site: Site, path: Path)
    ensures Expand(site, path, 0, []).Ok?
        <==> forall chain :: LiveChain(site, chain) && chain[0] == path ==> Sound(site, [], chain)
  {
    if Expand(site, path, 0, []).Ok? {
      forall chain | LiveChain(site, chain) && chain[0] == path ensures Sound(site, [], chain) {
        SuccessMeansSound(site, 0, [], chain);
      }
    } else {
      var chain := FailureHasUnsoundChain(site, path, 0, []);
    }
  }

  // ── why it failed ─────────────────────────────────────────────────────────

  /** The n-th live line of the file includes `rel`. */
  predicate IncludesOnLine(site: Site, path: Path, n: nat, rel: string) {
    && site.live(path).Ok? && 0 < n <= |site.live(path).value|
    && site.live(path).value[n - 1].kind == Include(rel)
  }

  /** The error is what stopped this chain of live includes, below those `above`: its last file
      is a twelfth, or open already, or unreadable, or includes on that line what is missing or
      lies outside the root. */
  predicate Stops(site: Site, above: seq<Path>, chain: seq<Path>, e: ExpandError) {
    && LiveChain(site, chain)
    && var whole, last := above + chain, chain[|chain| - 1];
       match e
       case TooDeep(path, open) => path == last && open + [path] == whole && |whole| == 12
       case Circular(loop) => loop == whole && last in whole[..|whole| - 1]
       case NoSuchSnippet(path, n, rel) =>
         path == last && IncludesOnLine(site, path, n, rel) && !site.isFile(site.resolve(rel))
       case Escapes(path, n, rel) =>
         && path == last && IncludesOnLine(site, path, n, rel)
         && site.isFile(site.resolve(rel)) && !site.inside(site.resolve(rel))
       case _ => site.live(last) == Err(e)
  }

  /** The only errors reading a file can give. */
  ghost predicate FailsToRead(site: Site) {
    forall path :: site.live(path).Err? ==> site.live(path).error.Unreadable? || site.live(path).error.BadConditional?
  }

  lemma {:induction false} FailureHasACause(site: Site, path: Path, depth: nat, stack: seq<Path>) returns (chain: seq<Path>)
    requires FailsToRead(site) && depth == |stack| <= MAX_INCLUDE_DEPTH + 1 && Expand(site, path, depth, stack).Err?
    ensures Stops(site, stack, chain, Expand(site, path, depth, stack).error) && chain[0] == path
    decreases MAX_INCLUDE_DEPTH + 1 - depth
  {
    chain := [path];
    if depth > MAX_INCLUDE_DEPTH || path in stack || site.live(path).Err? { return; }
    var lines := site.live(path).value;
    var k := FirstLineFails(site, path, depth, stack, lines, 0);
    var target := site.resolve(lines[k].kind.rel);
    assert IncludesAt(site, lines[k], target);
    if site.isFile(target) && site.inside(target) {
      var below := FailureHasACause(site, target, depth + 1, stack + [path]);
      Link(site, path, below);
      chain := [path] + below;
      assert stack + [path] + below == stack + chain;
    }
  }

  /** Every failure names its cause: some chain of live includes from the template, and what is
      wrong with its last file or on which of its lines. */
  lemma FailureNamesItsCause(tree: Tree, flags: Flags, path: Path) returns (chain: seq<Path>)
    requires Expand(Under(tree, flags), path, 0, []).Err?
    ensures Stops(Under(tree, flags), [], chain, Expand(Under(tree, flags), path, 0, []).error) && chain[0] == path
  {
    chain := FailureHasACause(Under(tree, flags), path, 0, []);
  }

  // ── dead branches ─────────────────────────────────────────────────────────

  /** The two trees show the inliner the same thing at `path`: the same live lines (or the
      same error), and the same meaning for each name those lines include. The text of
      a dead branch, and what it would have included, are free to differ. */
  predicate AgreeAt(a: Site, b: Site, path: Path) {
    && a.live(path) == b.live(path)
    && a.isFile(path) == b.isFile(path) && a.inside(path) == b.inside(path)
    && (a.live(path).Ok? ==>
          forall k :: 0 <= k < |a.live(path).value| ==>
            SameTarget(a, b, a.live(path).value[k]))
  }

  predicate SameTarget(a: Site, b: Site, line: Token) {
    line.kind.Include? ==> a.resolve(line.kind.rel) == b.resolve(line.kind.rel)
  }

  ghost predicate AgreeBelow(a: Site, b: Site, path: Path) {
    forall chain :: LiveChain(a, chain) && chain[0] == path ==> AgreeAt(a, b, chain[|chain| - 1])
  }

  lemma AgreeBelowTarget(a: Site, b: Site, path: Path, target: Path)
    requires AgreeBelow(a, b, path) && Reaches(a, path, target)
    ensures AgreeBelow(a, b, target)
  {
    forall chain | LiveChain(a, chain) && chain[0] == target
      ensures AgreeAt(a, b, chain[|chain| - 1])
    {
      var longer := [path] + chain;
      Link(a, path, chain);
      assert LiveChain(a, longer) && longer[|longer| - 1] == chain[|chain| - 1];
    }
  }

  lemma AgreesHere(a: Site, b: Site, path: Path)
    requires AgreeBelow(a, b, path)
    ensures AgreeAt(a, b, path)
  {
    assert LiveChain(a, [path]);
    assert AgreeAt(a, b, [path][|[path]| - 1]);
  }

  /** Dead branches cannot matter: two trees that agree wherever live includes lead give
      the same expansion, or the same failure. */
  lemma {:induction false} DeadBranchesCannotMatter(
      a: Site, b: Site, path: Path, depth: nat, stack: seq<Path>)
    requires AgreeBelow(a, b, path)
    ensures Expand(a, path, depth, stack) == Expand(b, path, depth, stack)
    decreases if depth > MAX_INCLUDE_DEPTH then 0 else MAX_INCLUDE_DEPTH + 1 - depth, 1, 0
  {
    AgreesHere(a, b, path);
    if depth <= MAX_INCLUDE_DEPTH && path !in stack && a.live(path).Ok? {
      SameLines(a, b, path, depth, stack, a.live(path).value, 0);
    }
  }

  lemma {:induction false} SameLines(
      a: Site, b: Site, path: Path, depth: nat, stack: seq<Path>, lines: seq<Token>, lineno: nat)
    requires depth <= MAX_INCLUDE_DEPTH && AgreeBelow(a, b, path) && a.live(path).Ok?
    requires lineno <= |a.live(path).value| && lines == a.live(path).value[lineno..]
    ensures ExpandLines(a, path, depth, stack, lines, lineno)
         == ExpandLines(b, path, depth, stack, lines, lineno)
    decreases MAX_INCLUDE_DEPTH + 1 - depth, 0, |lines|
  {
    if lines != [] {
      assert a.live(path).value[lineno] == lines[0];
      SameLine(a, b, path, depth, stack, lines[0], lineno);
      SameLines(a, b, path, depth, stack, lines[1..], lineno + 1);
    }
  }

  lemma {:induction false} SameLine(
      a: Site, b: Site, path: Path, depth: nat, stack: seq<Path>, line: Token, k: nat)
    requires depth <= MAX_INCLUDE_DEPTH && AgreeBelow(a, b, path) && a.live(path).Ok?
    requires k < |a.live(path).value| && line == a.live(path).value[k]
    ensures ExpandLine(a, path, depth, stack, line, k + 1)
         == ExpandLine(b, path, depth, stack, line, k + 1)
    decreases MAX_INCLUDE_DEPTH + 1 - depth, 0, 0
  {
    AgreesHere(a, b, path);
    assert SameTarget(a, b, a.live(path).value[k]);
    if line.kind.Include? {
      var target := a.resolve(line.kind.rel);
      assert IncludesAt(a, a.live(path).value[k], target);
      assert Reaches(a, path, target);
      AgreeBelowTarget(a, b, path, target);
      AgreesHere(a, b, target);
      DeadBranchesCannotMatter(a, b, target, depth + 1, stack + [path]);
    }
  }

  /** The same tree but for what its dead branches hold. */
  predicate SameLive(x: Blocks, y: Blocks, flags: Flags)
    requires WellFormed(x, flags.Keys) && WellFormed(y, flags.Keys)
  {
    match x
    case End => y.End?
    case Plain(line, rest) => y.Plain? && line == y.line && SameLive(rest, y.rest, flags)
    case Cond(open, body, alt, _, rest) =>
      && y.Cond? && SameLive(rest, y.rest, flags)
      && flags[open.kind.flag] == flags[y.open.kind.flag]
      && if flags[open.kind.flag] then SameLive(body, y.body, flags)
         else if alt.ElseDo? then y.alt.ElseDo? && SameLive(alt.blocks, y.alt.blocks, flags)
         else y.alt.NoElse?
  }

  /** What `AgreeAt` asks of a file rewritten only in its dead branches holds of it. */
  lemma {:induction false} RewritingDeadBranchesIsInvisible(x: Blocks, y: Blocks, flags: Flags)
    requires WellFormed(x, flags.Keys) && WellFormed(y, flags.Keys) && SameLive(x, y, flags)
    ensures Strip(Render(x, []), flags, 0, []) == Strip(Render(y, []), flags, 0, [])
  {
    StripEvaluatesTrees(x, flags);
    StripEvaluatesTrees(y, flags);
    SameLiveEval(x, y, flags);
  }

  lemma {:induction false} SameLiveEval(x: Blocks, y: Blocks, flags: Flags)
    requires WellFormed(x, flags.Keys) && WellFormed(y, flags.Keys) && SameLive(x, y, flags)
    ensures Eval(x, flags) == Eval(y, flags)
  {
    match x
    case End =>
    case Plain(_, rest) => SameLiveEval(rest, y.rest, flags);
    case Cond(open, body, alt, _, rest) =>
      SameLiveEval(rest, y.rest, flags);
      if flags[open.kind.flag] { SameLiveEval(body, y.body, flags); }
      else if alt.ElseDo? { SameLiveEval(alt.blocks, y.alt.blocks, flags); }
  }
}
