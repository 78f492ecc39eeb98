/**
  The Mermaid flowchart text for an epic: a fixed legend of colour classes,
  then, per story, a node tagged with the colour bucket of its state, a click
  binding, and one edge from every story its blockers name.

  The text is defined the way the emitter builds it (string pieces joined in
  order). `GraphLine` is the same output read as a sequence of typed lines;
  `DotIsRendered` connects the two, and `ParseDot` shows that the typed
  reading is recovered from the text alone.
 */
module DiagramText {
  import opened Text
  import opened EpicInfo
  import opened ReferenceExtractor

  /** The colour classes of the legend. */
  datatype Bucket = Grey | Blue | Yellow | Green | Red

  function BucketName(b: Bucket): string {
    match b
    case Grey => "GREY"
    case Blue => "BLUE"
    case Yellow => "YELLOW"
    case Green => "GREEN"
    case Red => "RED"
  }

  function Fill(b: Bucket): string {
    match b
    case Grey => "#e0e2e5"
    case Blue => "#507bbd"
    case Yellow => "#f5b04f"
    case Green => "#94c37f"
    case Red => "#e87450"
  }

  function Stroke(b: Bucket): string {
    match b
    case Grey => "#c4c5c5"
    case Blue => "#2959a4"
    case Yellow => "#fc9d17"
    case Green => "#5fa640"
    case Red => "#ec4d22"
  }

  function TextColour(b: Bucket): string {
    if b == Grey then "#000" else "#fff"
  }

  /** The buckets in the order the legend declares them. */
  const Palette: seq<Bucket> := [Grey, Blue, Yellow, Green, Red]

  /**
    The colour bucket of a story state: finished work is green, work in
    progress blue, rejected work red, everything not yet started grey. No state
    is yellow, although the legend declares the class.
   */
  function BucketOf(state: StoryState): (b: Bucket)
    ensures b != Yellow
  {
    match state
    case Accepted => Green
    case Delivered => Green
    case Finished => Green
    case Started => Blue
    case Rejected => Red
    case Planned => Grey
    case Unstarted => Grey
    case Unscheduled => Grey
  }

  /** Exactly the four buckets other than yellow are used by some state. */
  lemma BucketsInUse(b: Bucket)
    ensures (exists state :: BucketOf(state) == b) <==> b != Yellow
  {
    if b == Grey {
      assert BucketOf(Planned) == b;
    } else if b == Blue {
      assert BucketOf(Started) == b;
    } else if b == Green {
      assert BucketOf(Accepted) == b;
    } else if b == Red {
      assert BucketOf(Rejected) == b;
    }
  }

  // ---------------------------------------------------------------------------
  // The text, piece by piece

  const HeaderLine: string := "graph TD"

  const ClassDefPrefix: string := "\tclassDef "

  /** What follows a class name in its definition: its fill, stroke and text colours. */
  function ClassStyle(b: Bucket): string {
    " fill:" + Fill(b) + ",stroke:" + Stroke(b) + ",color:" + TextColour(b) + ";"
  }

  function ClassDefLine(b: Bucket): string {
    ClassDefPrefix + BucketName(b) + ClassStyle(b)
  }

  /** A node: the story's decimal id tagged with its bucket's class. */
  function NodeLine(id: nat, b: Bucket): string {
    "\t" + NatToString(id) + ":::" + BucketName(b)
  }

  /** Clicking a node calls the page's `ticketNodeCallback` with the node id. */
  const ClickSuffix: string := " call ticketNodeCallback()"

  function ClickLine(id: nat): string {
    "\tclick " + NatToString(id) + ClickSuffix
  }

  /** An edge from the referenced (blocking) story to the blocked one. */
  const Arrow: string := " --> "

  function EdgeLine(ref: string, id: nat): string {
    "\t" + ref + Arrow + NatToString(id)
  }

  /** The legend lines for `bs`, each newline-terminated. */
  function Legend(bs: seq<Bucket>): string {
    if bs == [] then [] else ClassDefLine(bs[0]) + "\n" + Legend(bs[1..])
  }

  /** `prelude`: the graph header, the five class definitions, a blank line. */
  function Prelude(): string {
    HeaderLine + "\n" + Legend(Palette) + "\n"
  }

  /** The references a list of blockers names, blocker by blocker. */
  function BlockerRefs(blockers: seq<Blocker>): (refs: seq<string>)
    ensures forall k :: 0 <= k < |refs| ==> IsDecimal(refs[k])
  {
    if blockers == [] then []
    else TicketNumbers(blockers[0].description) + BlockerRefs(blockers[1..])
  }

  /** Every reference of a story; a story without a blocker list has none. */
  function Refs(s: Story): (refs: seq<string>)
    ensures forall k :: 0 <= k < |refs| ==> IsDecimal(refs[k])
  {
    match s.blockers
    case None => []
    case Some(blockers) => BlockerRefs(blockers)
  }

  /** One newline-terminated edge line per reference, in order. */
  function EdgesFor(refs: seq<string>, id: nat): string {
    if refs == [] then [] else EdgeLine(refs[0], id) + "\n" + EdgesFor(refs[1..], id)
  }

  /** The edges of a list of blockers: blockers outside, their references inside. */
  function BlockerDeps(blockers: seq<Blocker>, id: nat): string {
    if blockers == [] then []
    else EdgesFor(TicketNumbers(blockers[0].description), id) + BlockerDeps(blockers[1..], id)
  }

  function Deps(s: Story): string {
    match s.blockers
    case None => ""
    case Some(blockers) => BlockerDeps(blockers, s.id)
  }

  /** `story_node`: node line, click line, edges, and an empty line. */
  function StoryNode(s: Story): string {
    NodeLine(s.id, BucketOf(s.currentState)) + "\n" + ClickLine(s.id) + "\n" + Deps(s) + "\n"
  }

  function StoryNodes(stories: seq<Story>): string {
    if stories == [] then [] else StoryNode(stories[0]) + StoryNodes(stories[1..])
  }

  /** `dot_representation`: the prelude, one more newline, then every story in input order. The epic is not used. */
  function DotRepresentation(epic: Epic, stories: seq<Story>): string {
    Prelude() + "\n" + StoryNodes(stories)
  }

  // ---------------------------------------------------------------------------
  // The same text as typed lines

  datatype GraphLine =
    | Header
    | ClassDef(bucket: Bucket)
    | Blank
    | Node(id: nat, bucket: Bucket)
    | Click(target: nat)
    | Edge(source: string, target: nat)

  function RenderLine(g: GraphLine): string {
    match g
    case Header => HeaderLine
    case ClassDef(b) => ClassDefLine(b)
    case Blank => ""
    case Node(id, b) => NodeLine(id, b)
    case Click(id) => ClickLine(id)
    case Edge(ref, id) => EdgeLine(ref, id)
  }

  function Rendered(gs: seq<GraphLine>): (lines: seq<string>)
    ensures |lines| == |gs|
    ensures forall k :: 0 <= k < |gs| ==> lines[k] == RenderLine(gs[k])
  {
    seq(|gs|, k requires 0 <= k < |gs| => RenderLine(gs[k]))
  }

  /** The text of a sequence of lines, each terminated by a newline. */
  function Render(gs: seq<GraphLine>): string {
    JoinLines(Rendered(gs))
  }

  lemma RenderAppend(a: seq<GraphLine>, b: seq<GraphLine>)
    ensures Render(a + b) == Render(a) + Render(b)
  {
    assert Rendered(a + b) == Rendered(a) + Rendered(b);
    JoinLinesAppend(Rendered(a), Rendered(b));
  }

  lemma RenderCons(g: GraphLine, rest: seq<GraphLine>)
    ensures Render([g] + rest) == RenderLine(g) + "\n" + Render(rest)
  {
    assert Rendered([g] + rest)[1..] == Rendered(rest);
  }

  function ClassDefs(bs: seq<Bucket>): (gs: seq<GraphLine>)
    ensures |gs| == |bs| && forall k :: 0 <= k < |bs| ==> gs[k] == ClassDef(bs[k])
  {
    seq(|bs|, k requires 0 <= k < |bs| => ClassDef(bs[k]))
  }

  function EdgeLines(refs: seq<string>, id: nat): (gs: seq<GraphLine>)
    ensures |gs| == |refs| && forall k :: 0 <= k < |refs| ==> gs[k] == Edge(refs[k], id)
  {
    seq(|refs|, k requires 0 <= k < |refs| => Edge(refs[k], id))
  }

  /** A story as lines: its node, its click binding, an edge per reference, a blank line. */
  function StoryLines(s: Story): seq<GraphLine> {
    [Node(s.id, BucketOf(s.currentState)), Click(s.id)] + EdgeLines(Refs(s), s.id) + [Blank]
  }

  function StoriesLines(stories: seq<Story>): seq<GraphLine> {
    if stories == [] then [] else StoryLines(stories[0]) + StoriesLines(stories[1..])
  }

  /** The length of the fixed opening: header, five class definitions, two blank lines. */
  const OpeningLength: nat := 8

  function Opening(): (gs: seq<GraphLine>)
    ensures |gs| == OpeningLength
  {
    [Header] + ClassDefs(Palette) + [Blank, Blank]
  }

  /** The whole chart as lines. */
  function DocLines(stories: seq<Story>): seq<GraphLine> {
    Opening() + StoriesLines(stories)
  }

  lemma {:induction false} LegendRendered(bs: seq<Bucket>)
    ensures Legend(bs) == Render(ClassDefs(bs))
    decreases |bs|
  {
    if bs != [] {
      assert ClassDefs(bs) == [ClassDef(bs[0])] + ClassDefs(bs[1..]);
      RenderCons(ClassDef(bs[0]), ClassDefs(bs[1..]));
      LegendRendered(bs[1..]);
    }
  }

  lemma {:induction false} EdgesRendered(refs: seq<string>, id: nat)
    ensures EdgesFor(refs, id) == Render(EdgeLines(refs, id))
    decreases |refs|
  {
    if refs != [] {
      assert EdgeLines(refs, id) == [Edge(refs[0], id)] + EdgeLines(refs[1..], id);
      RenderCons(Edge(refs[0], id), EdgeLines(refs[1..], id));
      EdgesRendered(refs[1..], id);
    }
  }

  lemma {:induction false} BlockerDepsRendered(blockers: seq<Blocker>, id: nat)
    ensures BlockerDeps(blockers, id) == Render(EdgeLines(BlockerRefs(blockers), id))
    decreases |blockers|
  {
    if blockers != [] {
      BlockerDepsRendered(blockers[1..], id);
      EdgesThenRest(TicketNumbers(blockers[0].description), BlockerRefs(blockers[1..]), id);
    }
  }

  /** The edges of one blocker's references, then those of the rest, render as the edges of all of them. */
  lemma EdgesThenRest(first: seq<string>, rest: seq<string>, id: nat)
    ensures EdgesFor(first, id) + Render(EdgeLines(rest, id)) == Render(EdgeLines(first + rest, id))
  {
    assert EdgeLines(first + rest, id) == EdgeLines(first, id) + EdgeLines(rest, id);
    RenderAppend(EdgeLines(first, id), EdgeLines(rest, id));
    EdgesRendered(first, id);
  }

  lemma DepsRendered(s: Story)
    ensures Deps(s) == Render(EdgeLines(Refs(s), s.id))
  {
    match s.blockers {
      case None =>
        assert EdgeLines(Refs(s), s.id) == [];
      case Some(blockers) =>
        BlockerDepsRendered(blockers, s.id);
    }
  }

  lemma RenderEmpty()
    ensures Render([]) == []
  {
    assert Rendered([]) == [];
  }

  /** The text of two lines, a block of lines, and a blank line. */
  lemma RenderFramed(a: GraphLine, b: GraphLine, mid: seq<GraphLine>)
    ensures Render([a, b] + mid + [Blank]) == RenderLine(a) + "\n" + RenderLine(b) + "\n" + Render(mid) + "\n"
  {
    var tail := mid + [Blank];
    var x, y := RenderLine(a), RenderLine(b);
    calc {
      Render([a, b] + mid + [Blank]);
    == { assert [a, b] + mid + [Blank] == [a] + ([b] + tail); }
      Render([a] + ([b] + tail));
    == { RenderCons(a, [b] + tail); }
      x + "\n" + Render([b] + tail);
    == { RenderCons(b, tail); }
      x + "\n" + (y + "\n" + Render(tail));
    == { RenderBlankLast(mid); }
      x + "\n" + (y + "\n" + (Render(mid) + "\n"));
    == { Regroup(x, y, Render(mid)); }
      x + "\n" + y + "\n" + Render(mid) + "\n";
    }
  }

  lemma Regroup(x: string, y: string, m: string)
    ensures x + "\n" + (y + "\n" + (m + "\n")) == x + "\n" + y + "\n" + m + "\n"
  {
  }

  /** A closing blank line adds a newline. */
  lemma RenderBlankLast(gs: seq<GraphLine>)
    ensures Render(gs + [Blank]) == Render(gs) + "\n"
  {
    RenderAppend(gs, [Blank]);
    RenderCons(Blank, []);
    RenderEmpty();
  }

  lemma StoryNodeRendered(s: Story)
    ensures StoryNode(s) == Render(StoryLines(s))
  {
    DepsRendered(s);
    RenderFramed(Node(s.id, BucketOf(s.currentState)), Click(s.id), EdgeLines(Refs(s), s.id));
  }

  lemma {:induction false} StoryNodesRendered(stories: seq<Story>)
    ensures StoryNodes(stories) == Render(StoriesLines(stories))
    decreases |stories|
  {
    if stories != [] {
      StoryNodeRendered(stories[0]);
      StoryNodesRendered(stories[1..]);
      RenderAppend(StoryLines(stories[0]), StoriesLines(stories[1..]));
    }
  }

  /** The text of one line, a block of lines, and two blank lines. */
  lemma RenderOpened(a: GraphLine, mid: seq<GraphLine>)
    ensures Render([a] + mid + [Blank, Blank]) == RenderLine(a) + "\n" + Render(mid) + "\n" + "\n"
  {
    var x := RenderLine(a);
    calc {
      Render([a] + mid + [Blank, Blank]);
    == { assert [a] + mid + [Blank, Blank] == [a] + mid + [Blank] + [Blank]; }
      Render([a] + mid + [Blank] + [Blank]);
    == { RenderBlankLast([a] + mid + [Blank]); }
      Render([a] + mid + [Blank]) + "\n";
    == { RenderBlankLast([a] + mid); }
      Render([a] + mid) + "\n" + "\n";
    == { RenderCons(a, mid); }
      x + "\n" + Render(mid) + "\n" + "\n";
    }
  }

  /** The prelude and the newline after it are the opening lines. */
  lemma OpeningRendered()
    ensures Render(Opening()) == Prelude() + "\n"
  {
    LegendRendered(Palette);
    RenderOpened(Header, ClassDefs(Palette));
  }

  /** The emitted text is exactly the typed lines of `DocLines`, each on its own line. */
  lemma DotIsRendered(epic: Epic, stories: seq<Story>)
    ensures DotRepresentation(epic, stories) == Render(DocLines(stories))
  {
    OpeningRendered();
    StoryNodesRendered(stories);
    RenderAppend(Opening(), StoriesLines(stories));
  }

  // ---------------------------------------------------------------------------
  // Reading the text back

  /** The bucket whose class name is `name`, if any. */
  function BucketNamed(name: string): (r: Option<Bucket>)
    ensures r.Some? ==> BucketName(r.value) == name
  {
    if name == "GREY" then Some(Grey)
    else if name == "BLUE" then Some(Blue)
    else if name == "YELLOW" then Some(Yellow)
    else if name == "GREEN" then Some(Green)
    else if name == "RED" then Some(Red)
    else None
  }

  /** Index of the first space at or after `i`, or `|t|` if there is none. */
  function NameEnd(t: string, i: nat): (k: nat)
    requires i <= |t|
    ensures i <= k <= |t|
    decreases |t| - i
  {
    if i == |t| || t[i] == ' ' then i else NameEnd(t, i + 1)
  }

  /** The bucket whose class definition is `line`, if any. */
  function ClassDefNamed(line: string): (r: Option<Bucket>)
    ensures r.Some? ==> ClassDefLine(r.value) == line
  {
    if !StartsWith(line, ClassDefPrefix) then None
    else
      var rest := line[|ClassDefPrefix|..];
      match BucketNamed(rest[..NameEnd(rest, 0)])
      case None => None
      case Some(b) => if line == ClassDefLine(b) then Some(b) else None
  }

  /** A tab-indented line that starts with a decimal id: a node or an edge. */
  function ParseIdLine(t: string): Option<GraphLine> {
    var n := DigitRun(t, 0);
    if n == 0 then None
    else
      var id := t[..n];
      var rest := t[n..];
      if StartsWith(rest, ":::") then
        match BucketNamed(rest[3..])
        case Some(b) => Some(Node(ParseNat(id), b))
        case None => None
      else if StartsWith(rest, Arrow) && IsDecimal(rest[|Arrow|..]) then
        Some(Edge(id, ParseNat(rest[|Arrow|..])))
      else None
  }

  /** A click binding `click <id> call ticketNodeCallback()`, given after its tab. */
  function ParseClick(t: string): Option<GraphLine>
    requires StartsWith(t, "click ")
  {
    var u := t[6..];
    if EndsWith(u, ClickSuffix) && IsDecimal(u[..|u| - |ClickSuffix|]) then
      Some(Click(ParseNat(u[..|u| - |ClickSuffix|])))
    else None
  }

  /** A tab-indented line: a class definition, a click binding, a node or an edge. */
  function ParseTabbed(line: string): Option<GraphLine>
    requires |line| > 0
  {
    var t := line[1..];
    if StartsWith(t, "classDef ") then
      match ClassDefNamed(line)
      case Some(b) => Some(ClassDef(b))
      case None => None
    else if StartsWith(t, "click ") then ParseClick(t)
    else ParseIdLine(t)
  }

  /** The typed reading of one line of chart text. */
  function ParseLine(line: string): Option<GraphLine> {
    if line == HeaderLine then Some(Header)
    else if line == "" then Some(Blank)
    else if line[0] != '\t' then None
    else ParseTabbed(line)
  }

  function ParseLines(lines: seq<string>): (r: Option<seq<GraphLine>>)
    ensures r.Some? ==> |r.value| == |lines|
  {
    if lines == [] then Some([])
    else
      match ParseLine(lines[0])
      case None => None
      case Some(g) =>
        match ParseLines(lines[1..])
        case None => None
        case Some(rest) => Some([g] + rest)
  }

  /** The typed reading of chart text, or `None` if some line is not one the emitter writes. */
  function ParseGraph(text: string): Option<seq<GraphLine>> {
    ParseLines(SplitLines(text))
  }

  /** Lines whose edge sources are decimal, as the extractor guarantees. */
  predicate Emittable(g: GraphLine) {
    g.Edge? ==> IsDecimal(g.source)
  }

  lemma NodeLinePlain(id: nat, b: Bucket)
    ensures Plain(NodeLine(id, b))
  {
    var ds := NatToString(id);
    DecimalPlain(ds);
    assert Plain(BucketName(b)) by {
      match b {
        case Grey =>
        case Blue =>
        case Yellow =>
        case Green =>
        case Red =>
      }
    }
    assert Plain("\t") && Plain(":::");
    ConcatKeeps("\t", ds);
    ConcatKeeps("\t" + ds, ":::");
    ConcatKeeps("\t" + ds + ":::", BucketName(b));
  }

  lemma ClickLinePlain(id: nat)
    ensures Plain(ClickLine(id))
  {
    var ds := NatToString(id);
    DecimalPlain(ds);
    assert Plain("\tclick ");
    assert Plain(ClickSuffix);
    ConcatKeeps("\tclick ", ds);
    ConcatKeeps("\tclick " + ds, ClickSuffix);
  }

  lemma EdgeLinePlain(ref: string, id: nat)
    requires IsDecimal(ref)
    ensures Plain(EdgeLine(ref, id))
  {
    var ds := NatToString(id);
    DecimalPlain(ref);
    DecimalPlain(ds);
    assert Plain("\t") && Plain(Arrow);
    ConcatKeeps("\t", ref);
    ConcatKeeps("\t" + ref, Arrow);
    ConcatKeeps("\t" + ref + Arrow, ds);
  }

  lemma ClassStylePlain(b: Bucket)
    ensures Plain(ClassStyle(b))
  {
    var fill, stroke, colour := Fill(b), Stroke(b), TextColour(b);
    assert Plain(fill) && Plain(stroke) && Plain(colour) by {
      match b {
        case Grey =>
        case Blue =>
        case Yellow =>
        case Green =>
        case Red =>
      }
    }
    assert Plain(" fill:") && Plain(",stroke:") && Plain(",color:") && Plain(";");
    ConcatKeeps(" fill:", fill);
    ConcatKeeps(" fill:" + fill, ",stroke:");
    ConcatKeeps(" fill:" + fill + ",stroke:", stroke);
    ConcatKeeps(" fill:" + fill + ",stroke:" + stroke, ",color:");
    ConcatKeeps(" fill:" + fill + ",stroke:" + stroke + ",color:", colour);
    ConcatKeeps(" fill:" + fill + ",stroke:" + stroke + ",color:" + colour, ";");
  }

  lemma ClassDefLinePlain(b: Bucket)
    ensures Plain(ClassDefLine(b))
  {
    var name := BucketName(b);
    assert Plain(name) by {
      match b {
        case Grey =>
        case Blue =>
        case Yellow =>
        case Green =>
        case Red =>
      }
    }
    assert Plain(ClassDefPrefix);
    ClassStylePlain(b);
    ConcatKeeps(ClassDefPrefix, name);
    ConcatKeeps(ClassDefPrefix + name, ClassStyle(b));
  }

  lemma RenderLinePlain(g: GraphLine)
    requires Emittable(g)
    ensures Plain(RenderLine(g))
  {
    match g {
      case Header => assert Plain(HeaderLine);
      case ClassDef(b) => ClassDefLinePlain(b);
      case Blank =>
      case Node(id, b) => NodeLinePlain(id, b);
      case Click(id) => ClickLinePlain(id);
      case Edge(ref, id) => EdgeLinePlain(ref, id);
    }
  }

  /** The digit run at the front of `digits + rest` is `digits` when `rest` does not start with a digit. */
  lemma {:induction false} DigitRunOf(digits: string, rest: string, i: nat)
    requires AllDigits(digits) && i <= |digits|
    requires rest == [] || !IsDigit(rest[0])
    ensures DigitRun(digits + rest, i) == |digits| - i
    decreases |digits| - i
  {
    var t := digits + rest;
    if i < |digits| {
      assert t[i] == digits[i];
      DigitRunOf(digits, rest, i + 1);
    } else if rest != [] {
      assert t[i] == rest[0];
    }
  }

  lemma TabbedLine(line: string)
    requires |line| > 0 && line[0] == '\t'
    ensures ParseLine(line) == ParseTabbed(line)
  {
    assert line != HeaderLine by {
      assert HeaderLine[0] == 'g';
    }
  }

  /** A tab followed by a digit starts a node or an edge. */
  lemma IdLine(line: string)
    requires |line| > 1 && line[0] == '\t' && IsDigit(line[1])
    ensures ParseLine(line) == ParseIdLine(line[1..])
  {
    TabbedLine(line);
    var t := line[1..];
    assert t[0] == line[1];
    assert !StartsWith(t, "classDef ") by {
      if |t| >= 9 {
        assert t[..9][0] == t[0];
      }
    }
    assert !StartsWith(t, "click ") by {
      if |t| >= 6 {
        assert t[..6][0] == t[0];
      }
    }
  }

  lemma ParseIdNode(ds: string, b: Bucket)
    requires IsDecimal(ds)
    ensures ParseIdLine(ds + (":::" + BucketName(b))) == Some(Node(ParseNat(ds), b))
  {
    var tail := ":::" + BucketName(b);
    var t := ds + tail;
    DigitRunOf(ds, tail, 0);
    assert t[..|ds|] == ds && t[|ds|..] == tail;
    assert StartsWith(tail, ":::");
    assert tail[3..] == BucketName(b);
    BucketNamedName(b);
  }

  lemma ParseNodeLine(id: nat, b: Bucket)
    ensures ParseLine(NodeLine(id, b)) == Some(Node(id, b))
  {
    var ds := NatToString(id);
    var tail := ":::" + BucketName(b);
    var line := "\t" + (ds + tail);
    assert NodeLine(id, b) == line;
    assert line[1..] == ds + tail;
    IdLine(line);
    ParseIdNode(ds, b);
  }

  lemma BucketNamedName(b: Bucket)
    ensures BucketNamed(BucketName(b)) == Some(b)
  {
    match b {
      case Grey =>
      case Blue =>
      case Yellow =>
      case Green =>
      case Red =>
    }
  }

  /** A tab followed by `click ` starts a click binding. */
  lemma ClickTabbed(u: string)
    ensures ParseLine("\tclick " + u) == ParseClick("click " + u)
  {
    var line := "\tclick " + u;
    var t := "click " + u;
    assert line[0] == '\t';
    assert line[1..] == t;
    TabbedLine(line);
    assert StartsWith(t, "click ");
    NotClassDef(t);
  }

  lemma NotClassDef(t: string)
    requires |t| > 2 && t[2] != 'a'
    ensures !StartsWith(t, "classDef ")
  {
    if |t| >= 9 {
      assert t[..9][2] == t[2];
    }
  }

  lemma ParseClickLine(id: nat)
    ensures ParseLine(ClickLine(id)) == Some(Click(id))
  {
    var ds := NatToString(id);
    var u := ds + ClickSuffix;
    var line := "\tclick " + u;
    assert ClickLine(id) == line;
    ClickTabbed(u);
    assert ("click " + u)[6..] == u;
    assert u[|u| - |ClickSuffix|..] == ClickSuffix;
    assert u[..|u| - |ClickSuffix|] == ds;
  }

  lemma ParseIdEdge(ref: string, ds: string)
    requires IsDecimal(ref) && IsDecimal(ds)
    ensures ParseIdLine(ref + (Arrow + ds)) == Some(Edge(ref, ParseNat(ds)))
  {
    var tail := Arrow + ds;
    var t := ref + tail;
    DigitRunOf(ref, tail, 0);
    assert t[..|ref|] == ref && t[|ref|..] == tail;
    EdgeShape(t, |ref|, ds);
  }

  /** An id of `n` digits followed by the arrow and a decimal: an edge line. */
  lemma EdgeShape(t: string, n: nat, ds: string)
    requires 0 < n <= |t| && DigitRun(t, 0) == n && t[n..] == Arrow + ds && IsDecimal(ds)
    ensures ParseIdLine(t) == Some(Edge(t[..n], ParseNat(ds)))
  {
    var rest := t[n..];
    assert rest[0] == ' ';
    assert rest[..|Arrow|] == Arrow && rest[|Arrow|..] == ds;
  }

  lemma ParseEdgeLine(ref: string, id: nat)
    requires IsDecimal(ref)
    ensures ParseLine(EdgeLine(ref, id)) == Some(Edge(ref, id))
  {
    var ds := NatToString(id);
    var line := "\t" + (ref + (Arrow + ds));
    assert EdgeLine(ref, id) == line;
    assert line[1..] == ref + (Arrow + ds);
    assert line[1] == ref[0];
    IdLine(line);
    ParseIdEdge(ref, ds);
  }

  lemma {:induction false} NameEndSkips(name: string, rest: string, i: nat)
    requires i <= |name| && (forall k :: 0 <= k < |name| ==> name[k] != ' ')
    requires |rest| > 0 && rest[0] == ' '
    ensures NameEnd(name + rest, i) == |name|
    decreases |name| - i
  {
    var t := name + rest;
    if i < |name| {
      assert t[i] == name[i];
      NameEndSkips(name, rest, i + 1);
    } else {
      assert t[i] == rest[0];
    }
  }

  /** No class name holds a space, and the style after it starts with one. */
  lemma NameEndOf(b: Bucket)
    ensures NameEnd(BucketName(b) + ClassStyle(b), 0) == |BucketName(b)|
  {
    var name := BucketName(b);
    assert forall k :: 0 <= k < |name| ==> name[k] != ' ' by {
      match b {
        case Grey =>
        case Blue =>
        case Yellow =>
        case Green =>
        case Red =>
      }
    }
    assert ClassStyle(b)[0] == ' ';
    NameEndSkips(name, ClassStyle(b), 0);
  }

  /** A tab followed by `classDef ` starts a class definition. */
  lemma ClassDefTabbed(rest: string)
    ensures ClassDefNamed(ClassDefPrefix + rest).Some? ==>
              ParseLine(ClassDefPrefix + rest) == Some(ClassDef(ClassDefNamed(ClassDefPrefix + rest).value))
  {
    var line := ClassDefPrefix + rest;
    ClassDefPrefixTabbed(rest);
    TabbedLine(line);
    TabbedClassDef(line);
  }

  lemma ClassDefPrefixTabbed(rest: string)
    ensures (ClassDefPrefix + rest)[0] == '\t'
    ensures StartsWith((ClassDefPrefix + rest)[1..], "classDef ")
  {
    assert (ClassDefPrefix + rest)[1..] == "classDef " + rest;
  }

  lemma TabbedClassDef(line: string)
    requires |line| > 0 && StartsWith(line[1..], "classDef ")
    ensures ClassDefNamed(line).Some? ==> ParseTabbed(line) == Some(ClassDef(ClassDefNamed(line).value))
  {
  }

  lemma ClassDefNamedLine(b: Bucket)
    ensures ClassDefNamed(ClassDefLine(b)) == Some(b)
  {
    var rest := BucketName(b) + ClassStyle(b);
    var line := ClassDefPrefix + rest;
    assert ClassDefLine(b) == line;
    assert StartsWith(line, ClassDefPrefix);
    assert line[|ClassDefPrefix|..] == rest;
    NameEndOf(b);
    assert rest[..|BucketName(b)|] == BucketName(b);
    BucketNamedName(b);
  }

  lemma ParseClassDefLine(b: Bucket)
    ensures ParseLine(ClassDefLine(b)) == Some(ClassDef(b))
  {
    var rest := BucketName(b) + ClassStyle(b);
    assert ClassDefLine(b) == ClassDefPrefix + rest;
    ClassDefNamedLine(b);
    ClassDefTabbed(rest);
  }

  /** Reading a rendered line gives the line back. */
  lemma ParseRenderLine(g: GraphLine)
    requires Emittable(g)
    ensures ParseLine(RenderLine(g)) == Some(g)
  {
    match g {
      case Header =>
      case ClassDef(b) => ParseClassDefLine(b);
      case Blank =>
      case Node(id, b) => ParseNodeLine(id, b);
      case Click(id) => ParseClickLine(id);
      case Edge(ref, id) => ParseEdgeLine(ref, id);
    }
  }

  lemma {:induction false} ParseRendered(gs: seq<GraphLine>)
    requires AllEmittable(gs)
    ensures ParseLines(Rendered(gs)) == Some(gs)
    decreases |gs|
  {
    if gs != [] {
      ParseRenderLine(gs[0]);
      assert Rendered(gs)[1..] == Rendered(gs[1..]);
      ParseRendered(gs[1..]);
      assert gs == [gs[0]] + gs[1..];
    }
  }

  lemma RenderedPlain(gs: seq<GraphLine>)
    requires AllEmittable(gs)
    ensures forall k :: 0 <= k < |gs| ==> Plain(Rendered(gs)[k])
  {
    forall k | 0 <= k < |gs|
      ensures Plain(Rendered(gs)[k])
    {
      RenderLinePlain(gs[k]);
    }
  }

  /** Reading back what `Render` wrote gives the lines back. */
  lemma RenderParses(gs: seq<GraphLine>)
    requires AllEmittable(gs)
    ensures ParseGraph(Render(gs)) == Some(gs)
  {
    RenderedPlain(gs);
    assert forall k :: 0 <= k < |gs| ==> NoNewline(Rendered(gs)[k]);
    SplitJoinLines(Rendered(gs));
    ParseRendered(gs);
  }

  predicate AllEmittable(gs: seq<GraphLine>) {
    forall k :: 0 <= k < |gs| ==> Emittable(gs[k])
  }

  lemma EmittableAppend(a: seq<GraphLine>, b: seq<GraphLine>)
    requires AllEmittable(a) && AllEmittable(b)
    ensures AllEmittable(a + b)
  {
    forall k | 0 <= k < |a + b|
      ensures Emittable((a + b)[k])
    {
      if k >= |a| {
        assert (a + b)[k] == b[k - |a|];
      }
    }
  }

  lemma OpeningEmittable()
    ensures AllEmittable(Opening())
  {
    var cds := ClassDefs(Palette);
    assert AllEmittable(cds);
    assert AllEmittable([Header]) && AllEmittable([Blank, Blank]);
    EmittableAppend([Header], cds);
    EmittableAppend([Header] + cds, [Blank, Blank]);
  }

  lemma {:induction false} StoriesLinesEmittable(stories: seq<Story>)
    ensures AllEmittable(StoriesLines(stories))
    decreases |stories|
  {
    if stories != [] {
      var s := stories[0];
      StoriesLinesEmittable(stories[1..]);
      var edges := EdgeLines(Refs(s), s.id);
      assert AllEmittable(edges);
      EmittableAppend([Node(s.id, BucketOf(s.currentState)), Click(s.id)], edges);
      EmittableAppend([Node(s.id, BucketOf(s.currentState)), Click(s.id)] + edges, [Blank]);
      EmittableAppend(StoryLines(s), StoriesLines(stories[1..]));
    }
  }

  /** The chart text reads back as exactly the typed lines of `DocLines`. */
  lemma ParseDot(epic: Epic, stories: seq<Story>)
    ensures ParseGraph(DotRepresentation(epic, stories)) == Some(DocLines(stories))
  {
    DotIsRendered(epic, stories);
    OpeningEmittable();
    StoriesLinesEmittable(stories);
    EmittableAppend(Opening(), StoriesLines(stories));
    RenderParses(DocLines(stories));
  }

  /** The chart text holds no `<` and no `&`: inside an HTML element it is read as text only. */
  lemma DotMarkupless(epic: Epic, stories: seq<Story>)
    ensures Markupless(DotRepresentation(epic, stories))
  {
    DotIsRendered(epic, stories);
    OpeningEmittable();
    StoriesLinesEmittable(stories);
    EmittableAppend(Opening(), StoriesLines(stories));
    RenderedPlain(DocLines(stories));
    JoinLinesMarkupless(Rendered(DocLines(stories)));
  }
}
