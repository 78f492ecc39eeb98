# Epic dependency diagram — Dafny model

The program fetches one Pivotal Tracker epic and its stories. It writes a
single HTML page with two parts:

- a Mermaid flowchart with one node per story, coloured by the story's
  state, plus an arrow from every story a blocker's description mentions
  to the blocked story;
- a side panel with one hidden details block per story.

Clicking a node calls a small script. The script hides whatever was shown
and shows the clicked story's block.

This project models the text-producing core and that script:

- **EpicInfo** (`epic_info.dfy`): the records the tracker returns: epic,
  story state, story, blocker, label.
- **Text** (`text.dfy`): decimal digits, the `u64` rendering of ids, and
  occurrence, joining and line-splitting of strings.
- **Pattern** (`pattern.dfy`): the fragment of regular expressions the
  extractor uses. A pattern is a sequence of literal characters, `.`
  wildcards and `([0-9]+)` groups. `MatchAt` is the greedy matcher, `Accepts`
  is the declarative meaning of a pattern, and `Scan` is the leftmost-first,
  non-overlapping search that `captures_iter` performs.
- **ReferenceExtractor** (`reference_extractor.dfy`): ticket numbers in a
  blocker description. These are short tags `#123`, canonical story URLs,
  then the alternate `/n/projects/<p>/stories/<s>` URLs, in that order.
- **DiagramText** (`diagram_text.dfy`): the Mermaid text.
  - `DotRepresentation` builds it exactly as the emitter does: a header, the
    colour classes, then one node line, one click line and one arrow per
    reference for each story.
  - It is also viewed as a sequence of `GraphLine`s. A parser for the emitted
    lines recovers that sequence.
- **DiagramFacts** (`diagram_facts.dfy`): what the chart contains, read off
  the recovered line structure: nodes, clicks and edges.
- **DomIds** (`dom_ids.dfy`): the element ids shared by page and script.
- **DiagramHtml** (`diagram_html.dfy`): the page. Every section is emitted
  verbatim. The clock reading and the `<head>` literal are parameters.
- **Ui** (`ui.dfy`): the selection script as a state machine over
  `currentNode` and the classes of the page's elements. A lookup of an
  absent element throws, as `null.className = …` does.
- **CrossReference** (`cross_reference.dfy`): chart, page and script agree.
  Every clickable node has its details block on the page, and any sequence
  of clicks on chart nodes, starting from the loaded page, never throws and
  leaves exactly one element on screen.

The URL regexes contain unescaped dots (`www.pivotaltracker.com`). The
model keeps them as they are written: each dot is a wildcard for any
character except a newline.

## Model

| member | source | states |
|---|---|---|
| Text.NatToString | src/diagram_text_emitter.rs:71 | A story id prints as a decimal numeral with no leading zero (except `0` itself) that reads back as the id |
| Text.NatToStringInjective | src/diagram_html_emitter.rs:9 | Different story ids print differently, so node ids and details-block ids never collide between stories |
| Text.SplitJoinLines | src/diagram_text_emitter.rs:113-123 | Splitting newline-joined lines that contain no newline gives back the lines, so the emitted line structure can be recovered |
| Pattern.MatchAt | src/diagram_text_emitter.rs:45-49 | A match spans at least the pattern's minimum width, stays inside the text, and yields one all-digit capture per group |
| Pattern.MatchAtSound | src/diagram_text_emitter.rs:45-49 | Whatever the greedy matcher reports is accepted by the declarative reading of the pattern, with the same end and captures |
| Pattern.MatchAtLongest | src/diagram_text_emitter.rs:45-49 | For a well-formed pattern, any accepted match makes the greedy matcher succeed, ending no earlier, and with the same captures when it ends at the same place; the greedy match is the longest |
| Pattern.ScanIsLeftmostChain | src/diagram_text_emitter.rs:52-55 | The search reports, from each resume point, the first position where the pattern matches, and no match starts in any gap it skips |
| Pattern.ChainIsScan | src/diagram_text_emitter.rs:52-55 | The leftmost non-overlapping sequence of matches is unique: any sequence with that property is exactly what the search returns |
| ReferenceExtractor.TicketNumbers | src/diagram_text_emitter.rs:43-68 | Every extracted ticket number is a non-empty run of ASCII digits |
| ReferenceExtractor.TicketNumbersAreChains | src/diagram_text_emitter.rs:51-67 | The result is all short-tag numbers, then all canonical-URL numbers, then all alternate-URL story numbers, each taken from the leftmost non-overlapping matches in text order |
| ReferenceExtractor.ShortTagIdsSpec | src/diagram_text_emitter.rs:45-56 | The short-tag results equal an independent positional definition: every `#` directly followed by a digit contributes the whole digit run after it, and the search resumes after that run |
| ReferenceExtractor.ShortTagKeepsDigitsVerbatim | src/diagram_text_emitter.rs:52-56 | Anywhere in a description, a `#` followed by digits yields its whole digit run as written, leading zeros included, between the results of the text before the `#` and those of the text after the run |
| ReferenceExtractor.PatternIdsEmpty | src/diagram_text_emitter.rs:52-66 | One pattern contributes nothing if and only if it matches nowhere in the description |
| ReferenceExtractor.NoMatchNoIds | src/diagram_text_emitter.rs:43-68 | A description yields no ticket numbers if and only if none of the three patterns matches anywhere in it |
| ReferenceExtractor.AlternateIdFollowsStories | src/diagram_text_emitter.rs:62-66 | Every alternate-URL result is the complete digit run directly after a `/stories/` segment, so it is the story number and not the project number |
| DiagramText.BucketOf | src/diagram_text_emitter.rs:72-81 | No story state is drawn yellow |
| DiagramText.BucketsInUse | src/diagram_text_emitter.rs:72-81 | A colour class is used by some story state if and only if it is not yellow; grey, blue, green and red all occur |
| DiagramText.BlockerDepsRendered | src/diagram_text_emitter.rs:90-109 | The arrows for a story's blockers are one tab-indented `ref --> id` line per extracted reference, blockers in order and references within a blocker in order |
| DiagramText.DepsRendered | src/diagram_text_emitter.rs:90-111 | A story without a blocker list gets no arrows; with one, it gets the arrows of its blockers' references |
| DiagramText.StoryNodeRendered | src/diagram_text_emitter.rs:70-124 | A story's text is its node line, its click line, its arrow lines and one blank line, each ended by a newline |
| DiagramText.OpeningRendered | src/diagram_text_emitter.rs:12-41 | The header is `graph TD`, then one class definition per colour in the fixed order grey, blue, yellow, green, red, then an empty line |
| DiagramText.DotIsRendered | src/diagram_text_emitter.rs:126-129 | The whole text is the header, followed by every story's lines in story order |
| DiagramText.ParseNodeLine | src/diagram_text_emitter.rs:71-81 | A node line reads back as the story's id and colour class |
| DiagramText.ParseClickLine | src/diagram_text_emitter.rs:88 | A click line reads back as a click on the story's id |
| DiagramText.ParseEdgeLine | src/diagram_text_emitter.rs:99-103 | An arrow line reads back as an edge from the referenced ticket to the blocked story |
| DiagramText.ParseClassDefLine | src/diagram_text_emitter.rs:22-29 | A class-definition line reads back as its colour |
| DiagramText.RenderParses | src/diagram_text_emitter.rs:113-128 | Rendering any sequence of emittable lines and parsing the text gives back the same sequence |
| DiagramText.ParseDot | src/diagram_text_emitter.rs:126-129 | The emitted text parses to exactly the line structure it was built from, for every epic and list of stories |
| DiagramText.DotMarkupless | src/diagram_html_emitter.rs:176-179 | The chart text contains no `<` and no `&`, so the page carries it to Mermaid unchanged |
| DiagramFacts.OneNodePerStory | src/diagram_text_emitter.rs:113-123 | Each story's text declares exactly one node: its own |
| DiagramFacts.OneClickPerStory | src/diagram_text_emitter.rs:113-123 | Each story's text binds exactly one click: on its own node |
| DiagramFacts.NodesFollowStories | src/diagram_text_emitter.rs:126-128 | The chart's nodes are the stories, in order, each with the colour of its state |
| DiagramFacts.ClicksFollowStories | src/diagram_text_emitter.rs:126-128 | The chart's click bindings are the stories, in order |
| DiagramFacts.EdgesFollowReferences | src/diagram_text_emitter.rs:90-111 | The chart's edges, in order, are the references of each story's blockers, story by story |
| DiagramFacts.EdgeCount | src/diagram_text_emitter.rs:90-111 | The chart has as many edges as there are extracted references over all blockers of all stories |
| DiagramFacts.EdgesAreReferences | src/diagram_text_emitter.rs:94-103 | Every edge goes from a reference in some story's blockers to that story, and every such reference has its edge |
| DiagramFacts.ClassesDeclaredFirst | src/diagram_text_emitter.rs:126-128 | Every node's colour class is declared above the node |
| DiagramFacts.NoRefsEachBlocker | src/diagram_text_emitter.rs:90-109 | A blocker list yields no references if and only if no blocker description yields a ticket number |
| DiagramFacts.NoReferencesNoEdges | src/diagram_text_emitter.rs:90-111 | A story gets no arrows if and only if no description of its blockers contains a short tag or one of the two URL forms |
| DomIds.DetailsId | src/diagram_html_emitter.rs:9 | A details block's id is the `story-details-` prefix followed by the story id, which can be read back from it |
| DomIds.DetailsIdInjective | src/ui.js:8-16 | Different story ids name different details blocks |
| DomIds.DetailsIdNotEmptyState | src/diagram_html_emitter.rs:168 | No details block shares the placeholder's id |
| DiagramHtml.StoryDetailsShows | src/diagram_html_emitter.rs:6-20 | A details block opens with its hidden `div` named after the story and shows the link to the story's URL, its name and its state's debug name verbatim |
| DiagramHtml.PanelOrder | src/diagram_html_emitter.rs:164-175 | The panel holds the placeholder first, then every story's details block in story order, without overlaps |
| DiagramHtml.SectionsInOrder | src/diagram_html_emitter.rs:182-193 | The page holds the prelude, head, body opening, navigation, main, footer, body closing and postlude in that order, separated by newlines |
| DiagramHtml.PageOpensAndCloses | src/diagram_html_emitter.rs:182-193 | The page starts with the doctype and `html` opening and ends with `</html>` and a newline |
| DiagramHtml.TimestampOnlyInFooter | src/diagram_html_emitter.rs:141-152 | Two runs that differ only in the clock reading produce pages that differ only inside the footer |
| DiagramHtml.EpicNameVerbatim | src/diagram_html_emitter.rs:130-139 | The epic's name appears verbatim in the page's heading |
| DiagramHtml.MermaidHoldsDot | src/diagram_html_emitter.rs:154-179 | Inside the `mermaid` container, the chart text is surrounded only by whitespace and the whole content is free of markup |
| DiagramHtml.MainInPage | src/diagram_html_emitter.rs:182-193 | The page contains the main section |
| DiagramHtml.PanelInPage | src/diagram_html_emitter.rs:165-179 | The page contains the panel |
| Ui.SetClass | src/ui.js:3-16 | Setting a class fails exactly when the page lacks the element; otherwise it changes only that element's class |
| Ui.TicketNodeCallback | src/ui.js:18-26 | A click returns exactly when both the element to hide and the clicked story's block exist. It then remembers the story, selects its block, hides what was shown and changes nothing else. Otherwise it throws with the current story unchanged |
| Ui.ClickSameTwice | src/ui.js:18-26 | Clicking the same story twice in a row leaves the state of the first click |
| Ui.Initial | src/ui.js:1 | The loaded page is well formed, no story is chosen, the placeholder has no class (so it is on screen), and every story's details block is `not-selected` |
| Ui.CallbackKeepsConsistent | src/ui.js:18-26 | A click on a story of the page returns, remembers that story and keeps the state well formed |
| Ui.RunKeepsConsistent | src/ui.js:18-26 | Any sequence of clicks on the page's stories keeps the state well formed and leaves the last clicked story current |
| Ui.RunNeverThrows | src/ui.js:18-26 | No click in such a sequence throws |
| Ui.OneVisible | src/ui.js:3-26 | In a well-formed state exactly one element is on screen, and only the current story's block can be selected |
| Ui.PlaceholderUntilFirstClick | src/ui.js:19-24 | The placeholder is on screen exactly until the first click; afterwards the last clicked story's block is selected |
| Ui.UnknownClickHidesAll | src/ui.js:18-26 | A click on an id without a details block throws after hiding what was shown, leaving nothing on screen and the current story unchanged |
| Ui.ClicksFromLoad | src/ui.js:1-26 | From the loaded page, no click on a story throws, and afterwards exactly one element is visible: the placeholder if there were no clicks, otherwise the last clicked story's block |
| CrossReference.StoryIds | src/diagram_html_emitter.rs:15 | The ids the page uses are the printed story ids, in order, and none is empty |
| CrossReference.ChartTargetsAreStoryIds | src/diagram_text_emitter.rs:88 | The chart's click bindings name exactly the story ids, in story order |
| CrossReference.DetailsInPage | src/diagram_html_emitter.rs:164 | Every story has its details block on the page |
| CrossReference.PlaceholderInPage | src/diagram_html_emitter.rs:168 | The page has the placeholder the script hides on the first click |
| CrossReference.ChartNodesHaveBlocks | src/diagram_html_emitter.rs:154-179 | Every node and every click target in the chart has a details block on the page |
| CrossReference.InitialStateIsPage | src/diagram_html_emitter.rs:6-20 | The script's starting state describes the emitted page: the placeholder without a class and every story's block `not-selected`, each present in the page |
| CrossReference.ChartClicks | src/ui.js:18-26 | Any sequence of clicks on the chart's nodes, starting from the loaded page, never throws and leaves exactly one element visible: the placeholder if there were no clicks, otherwise the last clicked story's block |

## Left out

- Fetching the epic and stories from the tracker's HTTP API (`epic_info.rs`
  from line 57 on) and the command-line entry point: network I/O. The model
  starts from the decoded records.
- The serde aliases on `StoryState` (lower-case names): these are JSON
  decoding only.
- The clock in `footer`: the timestamp string is a parameter.
- The `<head>` literal, with its style sheet and its own copy of the
  selection script: a parameter of the page. Only its position in the page
  is stated.
- The d3 zoom handler installed on page load (`ui.js` from line 28 on):
  this is the browser's rendering library, not selection logic.
- Labels: records carry them (`src/epic_info.rs:40`), but no emitted text reads
  them.
- HTML escaping: names, URLs and the epic name are inserted verbatim, as in
  the source. The model says they appear verbatim. It does not claim the
  result is well-formed HTML when they contain markup.
- Identifiers are `nat` rather than `u64`. Every `u64` is a `nat`, and
  `NatToString` prints as Rust's `Display` does. No arithmetic is performed
  on ids.
- `ParseNat` accepts leading zeros, so the parser is a left inverse of
  rendering only. This is what the round-trip lemmas use.
- The epic passed to `dot_representation` is not read by it. The model
  keeps the parameter for the same reason.
- Ui.ClickSameTwice: requires a non-empty story id. For "" the script's
  `if (currentNode)` is false and the second click hides the placeholder
  instead. Chart ids are printed numbers and are never empty.
- Ui.TicketNodeCallback: Mermaid passes the node id as a string, so
  `currentNode` is an optional string. The script's truthiness test is
  modelled for strings only (`null` and "" are false).
- Regular-expression matching in general: the model covers only the three
  fixed patterns' fragment (literals, `.` and `([0-9]+)` groups). Patterns
  are matched from each start position as the `regex` crate's leftmost-first
  semantics do for them.
