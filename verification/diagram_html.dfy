/**
  The HTML page around the chart: a fixed document prelude, the head (style
  and selection script, taken as given), a navigation bar naming the epic,
  the main area holding the chart and a panel of per-story details blocks, a
  footer with the generation time, and the closing tags. Names, URLs and the
  head are inserted as they are, without escaping.
 */
module DiagramHtml {
  import opened Text
  import opened EpicInfo
  import opened DomIds
  import DiagramText

  /** The opening tag of a story's details block; every block starts hidden. */
  function DetailsOpenTag(storyId: string): string {
    "<div id='" + DetailsId(storyId) + "' class='not-selected'>"
  }

  /** The opening tag of the placeholder; it has no class attribute. */
  const EmptyStateTag: string := "<div id=\"" + EmptyStateId + "\">"

  /** The link to the story in the tracker, labelled with the story's id; it opens in a new tab. */
  function Anchor(s: Story): string {
    "<a href='" + s.url + "' target=_blank>" + NatToString(s.id) + "</a>"
  }

  function LinkLine(s: Story): string {
    "<p>id: " + Anchor(s) + "</p>"
  }

  function NameLine(s: Story): string {
    "<p>name: " + s.name + "</p>"
  }

  function StateLine(s: Story): string {
    "<p>current state: " + DebugName(s.currentState) + "</p>"
  }

  const DetailsClose: string := "</div>\n"

  /** `story_details`: the hidden block for one story, its link, name and state, and a newline. */
  function StoryDetails(s: Story): string {
    DetailsOpenTag(NatToString(s.id)) + LinkLine(s) + NameLine(s) + StateLine(s) + DetailsClose
  }

  function Prelude(): string {
    "<!DOCTYPE html>\n<html lang='en-CA'>\n"
  }

  function Postlude(): string {
    "</html>\n"
  }

  function BodyPrelude(): string {
    "<body>\n"
  }

  function BodyPostlude(): string {
    "</body>\n"
  }

  /** `nav`: the epic's name as the page heading. */
  function Nav(epic: Epic): string {
    "<nav>" + Heading(epic) + "</nav>"
  }

  function Heading(epic: Epic): string {
    "<h1>Epic: " + epic.name + "</h1>"
  }

  /** `footer`, given the already formatted generation time. */
  function Footer(timestamp: string): string {
    "<footer><p>generated on: " + timestamp + "</p></footer>"
  }

  const ContainerOpen: string := "\n      <div class=\"diagram-container\">\n        "

  const MermaidOpen: string := "<div class=\"mermaid\">"

  const Indent: string := "\n        "

  const ContainerClose: string := "\n      </div>\n        "

  /** The chart container up to where the chart text goes. */
  const DiagramPrelude: string := ContainerOpen + MermaidOpen + Indent

  /** The chart container after the chart text. */
  const DiagramPostlude: string := Indent + "</div>" + ContainerClose

  const PanelLead: string := "\n      <div class=\"panel\">\n        "

  /** Everything of the panel before the details blocks, placeholder included. */
  const PanelOpen: string := PanelLead + EmptyStateTag + PanelNote

  /** The placeholder's text and closing tag. */
  const PanelNote: string := "\n         <p>Click a story to see it's details.</p>\n        </div>\n        "

  const PanelClose: string := "\n      </div>\n        "

  /** The details blocks, one per story. */
  function DetailsBlocks(stories: seq<Story>): (blocks: seq<string>)
    ensures |blocks| == |stories|
    ensures forall k :: 0 <= k < |stories| ==> blocks[k] == StoryDetails(stories[k])
  {
    seq(|stories|, k requires 0 <= k < |stories| => StoryDetails(stories[k]))
  }

  function Panel(stories: seq<Story>): string {
    PanelOpen + Concat(DetailsBlocks(stories)) + PanelClose
  }

  /** `main`: the chart container with the chart text, then the panel. */
  function Main(epic: Epic, stories: seq<Story>): string {
    MainOf(DiagramText.DotRepresentation(epic, stories), Panel(stories))
  }

  /** The `main` element around a given chart text and panel. */
  function MainOf(dot: string, panel: string): string {
    "<main>" + DiagramPrelude + "\n" + dot + "\n" + DiagramPostlude + "\n" + panel + "\n</main>"
  }

  /** The eight sections of the page, in order. */
  function Sections(epic: Epic, stories: seq<Story>, head: string, timestamp: string): (parts: seq<string>)
    ensures |parts| == 8
  {
    [Prelude(), head, BodyPrelude(), Nav(epic), Main(epic, stories), Footer(timestamp), BodyPostlude(), Postlude()]
  }

  /** `generate_page`: the sections joined by newlines, with none after the last. */
  function GeneratePage(epic: Epic, stories: seq<Story>, head: string, timestamp: string): string {
    JoinWith(Sections(epic, stories, head, timestamp), "\n")
  }

  // ---------------------------------------------------------------------------
  // Properties

  /** A details block opens with its story's tag and shows the link, the name and the state. */
  lemma StoryDetailsShows(s: Story)
    ensures StartsWith(StoryDetails(s), DetailsOpenTag(NatToString(s.id)))
    ensures Occurs("<a href='" + s.url + "' target=_blank>" + NatToString(s.id) + "</a>", StoryDetails(s))
    ensures Occurs("<p>name: " + s.name + "</p>", StoryDetails(s))
    ensures Occurs("<p>current state: " + DebugName(s.currentState) + "</p>", StoryDetails(s))
    ensures EndsWith(StoryDetails(s), "</div>\n")
  {
    var open := DetailsOpenTag(NatToString(s.id));
    var t := StoryDetails(s);
    Pieces(open, LinkLine(s), NameLine(s), StateLine(s), DetailsClose);
    OccursAtStart(open, t);
    OccursAtEnd(DetailsClose, t);
    OccursBetween("<p>id: ", Anchor(s), "</p>");
    OccursTransitive(Anchor(s), LinkLine(s), t);
  }

  /** Where the `k`-th details block starts inside the panel. */
  function DetailsAt(stories: seq<Story>, k: nat): nat
    requires k <= |stories|
  {
    |PanelOpen| + ConcatOffset(DetailsBlocks(stories), k)
  }

  /**
    The panel opens with the placeholder, then holds every story's details
    block, each at its own place, in input order and without overlap.
   */
  lemma PanelOrder(stories: seq<Story>)
    ensures OccursAt(EmptyStateTag, Panel(stories), |PanelLead|)
    ensures |PanelLead| + |EmptyStateTag| <= DetailsAt(stories, 0)
    ensures forall k :: 0 <= k < |stories| ==> OccursAt(StoryDetails(stories[k]), Panel(stories), DetailsAt(stories, k))
    ensures forall j, k :: 0 <= j < k < |stories| ==>
              DetailsAt(stories, j) + |StoryDetails(stories[j])| <= DetailsAt(stories, k)
  {
    PanelPlaceholder(stories);
    forall k | 0 <= k < |stories|
      ensures OccursAt(StoryDetails(stories[k]), Panel(stories), DetailsAt(stories, k))
    {
      PanelBlock(stories, k);
    }
    forall j, k | 0 <= j < k < |stories|
      ensures DetailsAt(stories, j) + |StoryDetails(stories[j])| <= DetailsAt(stories, k)
    {
      BlocksApart(stories, j, k);
    }
  }

  lemma BlocksApart(stories: seq<Story>, j: nat, k: nat)
    requires j < k < |stories|
    ensures DetailsAt(stories, j) + |StoryDetails(stories[j])| <= DetailsAt(stories, k)
  {
    var blocks := DetailsBlocks(stories);
    ConcatOccursAt(blocks, j);
    ConcatOffsetMonotone(blocks, j + 1, k);
  }

  lemma PanelPlaceholder(stories: seq<Story>)
    ensures OccursAt(EmptyStateTag, Panel(stories), |PanelLead|)
    ensures |PanelLead| + |EmptyStateTag| <= DetailsAt(stories, 0)
  {
    var blocks := DetailsBlocks(stories);
    Pieces(PanelLead, EmptyStateTag, PanelNote, Concat(blocks), PanelClose);
    assert blocks[..0] == [];
  }

  lemma PanelBlock(stories: seq<Story>, k: nat)
    requires k < |stories|
    ensures OccursAt(StoryDetails(stories[k]), Panel(stories), DetailsAt(stories, k))
  {
    var blocks := DetailsBlocks(stories);
    ConcatOccursAt(blocks, k);
    OccursAtShift(blocks[k], Concat(blocks), ConcatOffset(blocks, k), PanelOpen, PanelClose);
  }

  /** Where section `k` starts in the page. */
  function SectionAt(epic: Epic, stories: seq<Story>, head: string, timestamp: string, k: nat): nat
    requires k < 8
  {
    JoinOffset(Sections(epic, stories, head, timestamp), "\n", k)
  }

  /** The page holds its eight sections in their fixed order, a newline between each two. */
  lemma SectionsInOrder(epic: Epic, stories: seq<Story>, head: string, timestamp: string)
    ensures var page, parts := GeneratePage(epic, stories, head, timestamp), Sections(epic, stories, head, timestamp);
      && (forall k :: 0 <= k < 8 ==> OccursAt(parts[k], page, SectionAt(epic, stories, head, timestamp, k)))
      && (forall j, k :: 0 <= j < k < 8 ==>
            SectionAt(epic, stories, head, timestamp, j) + |parts[j]| + 1 <= SectionAt(epic, stories, head, timestamp, k))
  {
    var parts := Sections(epic, stories, head, timestamp);
    forall k | 0 <= k < 8
      ensures OccursAt(parts[k], GeneratePage(epic, stories, head, timestamp), SectionAt(epic, stories, head, timestamp, k))
    {
      JoinWithOccursAt(parts, "\n", k);
    }
    forall j, k | 0 <= j < k < 8
      ensures SectionAt(epic, stories, head, timestamp, j) + |parts[j]| + 1 <= SectionAt(epic, stories, head, timestamp, k)
    {
      JoinWithOrder(parts, "\n", j, k);
    }
  }

  /** The page is a whole document: it opens with the doctype and the `html` tag and closes with `</html>`. */
  lemma PageOpensAndCloses(epic: Epic, stories: seq<Story>, head: string, timestamp: string)
    ensures StartsWith(GeneratePage(epic, stories, head, timestamp), "<!DOCTYPE html>\n<html lang='en-CA'>\n")
    ensures EndsWith(GeneratePage(epic, stories, head, timestamp), "</html>\n")
  {
    var parts := Sections(epic, stories, head, timestamp);
    var page := GeneratePage(epic, stories, head, timestamp);
    JoinWithOccursAt(parts, "\n", 0);
    JoinWithSplit(parts, "\n", 7);
    assert parts[7..] == [Postlude()];
    assert page == JoinWith(parts[..7], "\n") + "\n" + Postlude();
  }

  /**
    The generation time enters the page only through the footer: two pages
    for the same epic and stories agree everywhere else.
   */
  lemma TimestampOnlyInFooter(epic: Epic, stories: seq<Story>, head: string, t1: string, t2: string)
    ensures exists before, after ::
      && GeneratePage(epic, stories, head, t1) == before + Footer(t1) + after
      && GeneratePage(epic, stories, head, t2) == before + Footer(t2) + after
  {
    SixthPartSwapped(Prelude(), head, BodyPrelude(), Nav(epic), Main(epic, stories), Footer(t1), Footer(t2), BodyPostlude(), Postlude());
  }

  /** Two joins of eight parts that differ only in the sixth agree around it. */
  lemma SixthPartSwapped(a0: string, a1: string, a2: string, a3: string, a4: string, f1: string, f2: string, a6: string, a7: string)
    ensures exists before, after ::
      && JoinWith([a0, a1, a2, a3, a4, f1, a6, a7], "\n") == before + f1 + after
      && JoinWith([a0, a1, a2, a3, a4, f2, a6, a7], "\n") == before + f2 + after
  {
    var p1, p2 := [a0, a1, a2, a3, a4, f1, a6, a7], [a0, a1, a2, a3, a4, f2, a6, a7];
    JoinWithReplace(p1, p2, "\n", 5);
  }

  /** The epic's name appears in the page's heading exactly as given. */
  lemma EpicNameVerbatim(epic: Epic, stories: seq<Story>, head: string, timestamp: string)
    ensures Occurs("<h1>Epic: " + epic.name + "</h1>", GeneratePage(epic, stories, head, timestamp))
  {
    OccursBetween("<nav>", Heading(epic), "</nav>");
    JoinOfEight(Prelude(), head, BodyPrelude(), Nav(epic), Main(epic, stories), Footer(timestamp), BodyPostlude(), Postlude());
    OccursTransitive(Heading(epic), Nav(epic), GeneratePage(epic, stories, head, timestamp));
  }

  /** Text made of spaces and newlines only. */
  predicate Whitespace(t: string) {
    forall k :: 0 <= k < |t| ==> t[k] == ' ' || t[k] == '\n'
  }

  /**
    The chart text stands whole inside the `mermaid` container, with only
    spaces and newlines around it and nothing an HTML parser would take for
    markup before the container's closing tag.
   */
  lemma MermaidHoldsDot(epic: Epic, stories: seq<Story>)
    ensures exists before, w1, w2, after ::
      && Main(epic, stories) == before + MermaidOpen + w1 + DiagramText.DotRepresentation(epic, stories) + w2 + "</div>" + after
      && Whitespace(w1) && Whitespace(w2)
      && Markupless(w1 + DiagramText.DotRepresentation(epic, stories) + w2)
  {
    DiagramText.DotMarkupless(epic, stories);
    ChartInContainer(DiagramText.DotRepresentation(epic, stories), Panel(stories));
  }

  /** Any markup-free chart text stands whole inside the `mermaid` container. */
  lemma ChartInContainer(dot: string, panel: string)
    requires Markupless(dot)
    ensures exists before, w1, w2, after ::
      && MainOf(dot, panel) == before + MermaidOpen + w1 + dot + w2 + "</div>" + after
      && Whitespace(w1) && Whitespace(w2)
      && Markupless(w1 + dot + w2)
  {
    var w1 := Indent + "\n";
    var w2 := "\n" + Indent;
    MainShape("<main>", ContainerOpen, MermaidOpen, Indent, "\n", dot, "</div>", ContainerClose, panel, "\n</main>");
    Padding();
    ConcatKeeps(w1, dot);
    ConcatKeeps(w1 + dot, w2);
    assert MainOf(dot, panel)
        == ("<main>" + ContainerOpen) + MermaidOpen + w1 + dot + w2 + "</div>"
           + (ContainerClose + "\n" + panel + "\n</main>");
  }

  /** The padding around the chart text is blank. */
  lemma Padding()
    ensures Whitespace(Indent + "\n") && Whitespace("\n" + Indent)
    ensures Markupless(Indent + "\n") && Markupless("\n" + Indent)
  {
  }

  /** The panel stands whole inside `main`. */
  lemma PanelInMain(dot: string, panel: string)
    ensures Occurs(panel, MainOf(dot, panel))
  {
    OccursBetween("<main>" + DiagramPrelude + "\n" + dot + "\n" + DiagramPostlude + "\n", panel, "\n</main>");
  }

  /** The navigation bar and `main`, the fourth and fifth of eight joined sections, occur in the join. */
  lemma JoinOfEight(a0: string, a1: string, a2: string, a3: string, a4: string, a5: string, a6: string, a7: string)
    ensures Occurs(a3, JoinWith([a0, a1, a2, a3, a4, a5, a6, a7], "\n"))
    ensures Occurs(a4, JoinWith([a0, a1, a2, a3, a4, a5, a6, a7], "\n"))
  {
    OccursInJoin([a0, a1, a2, a3, a4, a5, a6, a7], "\n", 3, a3);
    OccursInJoin([a0, a1, a2, a3, a4, a5, a6, a7], "\n", 4, a4);
  }

  /** `main` is the fifth section of the page. */
  lemma MainInPage(epic: Epic, stories: seq<Story>, head: string, timestamp: string)
    ensures Occurs(Main(epic, stories), GeneratePage(epic, stories, head, timestamp))
  {
    JoinOfEight(Prelude(), head, BodyPrelude(), Nav(epic), Main(epic, stories), Footer(timestamp), BodyPostlude(), Postlude());
  }

  /** The panel is in the page. */
  lemma PanelInPage(epic: Epic, stories: seq<Story>, head: string, timestamp: string)
    ensures Occurs(Panel(stories), GeneratePage(epic, stories, head, timestamp))
  {
    MainInPage(epic, stories, head, timestamp);
    PanelInMain(DiagramText.DotRepresentation(epic, stories), Panel(stories));
    OccursTransitive(Panel(stories), Main(epic, stories), GeneratePage(epic, stories, head, timestamp));
  }

  /** Regrouping the pieces of `main` around the chart text. */
  lemma MainShape(m: string, co: string, mo: string, ind: string, nl: string, dot: string,
                  dv: string, cc: string, panel: string, close: string)
    ensures m + (co + mo + ind) + nl + dot + nl + (ind + dv + cc) + nl + panel + close
         == (m + co) + mo + (ind + nl) + dot + (nl + ind) + dv + (cc + nl + panel + close)
  {
  }

}
