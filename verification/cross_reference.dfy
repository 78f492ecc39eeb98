/**
  How the chart, the page and the selection script fit together: the chart
  binds a click to every story node, the page declares a details block for
  every story under the id the script derives from the node's id, and so
  clicks on the chart always find their elements.
 */
module CrossReference {
  import opened Text
  import opened EpicInfo
  import opened DomIds
  import opened DiagramText
  import opened DiagramFacts
  import opened DiagramHtml
  import opened Ui

  /** The stories' ids as both the chart and the page write them. */
  function StoryIds(stories: seq<Story>): (ids: seq<string>)
    ensures |ids| == |stories|
    ensures forall k :: 0 <= k < |stories| ==> ids[k] == NatToString(stories[k].id)
    ensures Named(ids)
  {
    seq(|stories|, k requires 0 <= k < |stories| => NatToString(stories[k].id))
  }

  /** The ids the chart's click bindings pass to the callback, in order. */
  function ClickTargets(gs: seq<GraphLine>): (targets: seq<string>)
    ensures |targets| <= |gs|
    ensures forall t :: t in targets ==> exists c :: c in gs && c.Click? && t == NatToString(c.target)
  {
    if gs == [] then []
    else (if gs[0].Click? then [NatToString(gs[0].target)] else []) + ClickTargets(gs[1..])
  }

  lemma {:induction false} ClickTargetsSelect(gs: seq<GraphLine>)
    ensures var clicks := Select(gs, IsClick);
      && |ClickTargets(gs)| == |clicks|
      && forall k :: 0 <= k < |clicks| ==> ClickTargets(gs)[k] == NatToString(clicks[k].target)
    decreases |gs|
  {
    if gs != [] {
      ClickTargetsSelect(gs[1..]);
      var rest := Select(gs[1..], IsClick);
      if gs[0].Click? {
        var clicks := [gs[0]] + rest;
        assert Select(gs, IsClick) == clicks;
        var targets := [NatToString(gs[0].target)] + ClickTargets(gs[1..]);
        assert ClickTargets(gs) == targets;
        forall k | 0 <= k < |clicks|
          ensures targets[k] == NatToString(clicks[k].target)
        {
          if k > 0 {
            assert clicks[k] == rest[k - 1];
          }
        }
      } else {
        assert Select(gs, IsClick) == rest;
        assert ClickTargets(gs) == ClickTargets(gs[1..]);
      }
    }
  }

  /** The chart's click bindings, read back from its text, name exactly the stories, in input order. */
  lemma ChartTargetsAreStoryIds(epic: Epic, stories: seq<Story>)
    ensures ParseGraph(DotRepresentation(epic, stories)).Some?
    ensures ClickTargets(ParseGraph(DotRepresentation(epic, stories)).value) == StoryIds(stories)
  {
    ParseDot(epic, stories);
    ClicksFollowStories(stories);
    ClickTargetsSelect(DocLines(stories));
  }

  /** Story `k`'s details block, opening tag first, is in the page. */
  lemma DetailsInPage(epic: Epic, stories: seq<Story>, head: string, timestamp: string, k: nat)
    requires k < |stories|
    ensures Occurs(DetailsOpenTag(NatToString(stories[k].id)), GeneratePage(epic, stories, head, timestamp))
  {
    var block := StoryDetails(stories[k]);
    var open := DetailsOpenTag(NatToString(stories[k].id));
    StoryDetailsShows(stories[k]);
    assert OccursAt(open, block, 0);
    PanelBlock(stories, k);
    OccursTransitive(open, block, Panel(stories));
    PanelInPage(epic, stories, head, timestamp);
    OccursTransitive(open, Panel(stories), GeneratePage(epic, stories, head, timestamp));
  }

  /** The placeholder is in the page. */
  lemma PlaceholderInPage(epic: Epic, stories: seq<Story>, head: string, timestamp: string)
    ensures Occurs(EmptyStateTag, GeneratePage(epic, stories, head, timestamp))
  {
    PanelPlaceholder(stories);
    PanelInPage(epic, stories, head, timestamp);
    OccursTransitive(EmptyStateTag, Panel(stories), GeneratePage(epic, stories, head, timestamp));
  }

  /**
    Every story node and every click binding of the chart has, in the same
    page, the details block the script looks up for it.
   */
  lemma ChartNodesHaveBlocks(epic: Epic, stories: seq<Story>, head: string, timestamp: string)
    ensures ParseGraph(DotRepresentation(epic, stories)).Some?
    ensures forall g :: g in ParseGraph(DotRepresentation(epic, stories)).value && g.Node? ==>
              Occurs(DetailsOpenTag(NatToString(g.id)), GeneratePage(epic, stories, head, timestamp))
    ensures forall g :: g in ParseGraph(DotRepresentation(epic, stories)).value && g.Click? ==>
              Occurs(DetailsOpenTag(NatToString(g.target)), GeneratePage(epic, stories, head, timestamp))
  {
    ParseDot(epic, stories);
    var gs := DocLines(stories);
    forall g | g in gs && g.Node?
      ensures Occurs(DetailsOpenTag(NatToString(g.id)), GeneratePage(epic, stories, head, timestamp))
    {
      var k := NodeOfStory(stories, g);
      DetailsInPage(epic, stories, head, timestamp, k);
    }
    forall g | g in gs && g.Click?
      ensures Occurs(DetailsOpenTag(NatToString(g.target)), GeneratePage(epic, stories, head, timestamp))
    {
      var k := ClickOfStory(stories, g);
      DetailsInPage(epic, stories, head, timestamp, k);
    }
  }

  /** A node line of the chart is story `k`'s node. */
  lemma NodeOfStory(stories: seq<Story>, g: GraphLine) returns (k: nat)
    requires g in DocLines(stories) && g.Node?
    ensures k < |stories| && g.id == stories[k].id
  {
    NodesFollowStories(stories);
    SelectKeeps(DocLines(stories), IsNode, g);
    k :| 0 <= k < |Select(DocLines(stories), IsNode)| && Select(DocLines(stories), IsNode)[k] == g;
  }

  /** A click line of the chart is story `k`'s click binding. */
  lemma ClickOfStory(stories: seq<Story>, g: GraphLine) returns (k: nat)
    requires g in DocLines(stories) && g.Click?
    ensures k < |stories| && g.target == stories[k].id
  {
    ClicksFollowStories(stories);
    SelectKeeps(DocLines(stories), IsClick, g);
    k :| 0 <= k < |Select(DocLines(stories), IsClick)| && Select(DocLines(stories), IsClick)[k] == g;
  }

  /**
    The script's starting state is the page as emitted: the placeholder
    shown without a class, and one hidden details block per story, each of
    them declared in the page.
   */
  lemma InitialStateIsPage(epic: Epic, stories: seq<Story>, head: string, timestamp: string)
    ensures var dom := Initial(StoryIds(stories)).dom;
      && EmptyStateId in dom && dom[EmptyStateId] == Unset
      && Occurs(EmptyStateTag, GeneratePage(epic, stories, head, timestamp))
      && forall k :: 0 <= k < |stories| ==>
           var id := NatToString(stories[k].id);
           && DetailsId(id) in dom && dom[DetailsId(id)] == NotSelected
           && Occurs(DetailsOpenTag(id), GeneratePage(epic, stories, head, timestamp))
  {
    var ids := StoryIds(stories);
    var u := Initial(ids);
    PlaceholderInPage(epic, stories, head, timestamp);
    forall k | 0 <= k < |stories|
      ensures var id := NatToString(stories[k].id);
        && DetailsId(id) in u.dom && u.dom[DetailsId(id)] == NotSelected
        && Occurs(DetailsOpenTag(id), GeneratePage(epic, stories, head, timestamp))
    {
      var id := NatToString(stories[k].id);
      assert ids[k] == id;
      DetailsIdNotEmptyState(id);
      DetailsInPage(epic, stories, head, timestamp, k);
    }
  }

  /**
    Any sequence of clicks on the chart's nodes: no click throws, exactly
    one element is on screen afterwards, the placeholder until the first
    click and the last clicked story's block from then on.
   */
  lemma ChartClicks(epic: Epic, stories: seq<Story>, clicks: seq<string>)
    requires ParseGraph(DotRepresentation(epic, stories)).Some?
    requires forall c :: c in clicks ==> c in ClickTargets(ParseGraph(DotRepresentation(epic, stories)).value)
    ensures forall i :: 0 <= i < |clicks| ==>
              TicketNodeCallback(Run(Initial(StoryIds(stories)), clicks[..i]), clicks[i]).Returned?
    ensures var u := Run(Initial(StoryIds(stories)), clicks);
      && Visible(u.dom, Shown(u))
      && (forall k :: Visible(u.dom, k) ==> k == Shown(u))
      && (clicks == [] <==> Shown(u) == EmptyStateId)
      && (clicks != [] ==> Shown(u) == DetailsId(clicks[|clicks| - 1]))
  {
    ChartTargetsAreStoryIds(epic, stories);
    ClicksFromLoad(StoryIds(stories), clicks);
  }
}
