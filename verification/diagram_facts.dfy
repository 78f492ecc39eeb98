/**
  What the chart says about the stories, read from its typed lines: one node
  and one click binding per story in input order, an edge for every reference,
  and every class used by a node declared before it.
 */
module DiagramFacts {
  import opened Text
  import opened EpicInfo
  import opened Pattern
  import opened ReferenceExtractor
  import opened DiagramText

  /** The lines of `gs` that satisfy `keep`, in order. */
  function Select(gs: seq<GraphLine>, keep: GraphLine -> bool): (r: seq<GraphLine>)
    ensures |r| <= |gs|
    ensures forall k :: 0 <= k < |r| ==> keep(r[k]) && r[k] in gs
  {
    if gs == [] then [] else (if keep(gs[0]) then [gs[0]] else []) + Select(gs[1..], keep)
  }

  lemma {:induction false} SelectAppend(a: seq<GraphLine>, b: seq<GraphLine>, keep: GraphLine -> bool)
    ensures Select(a + b, keep) == Select(a, keep) + Select(b, keep)
    decreases |a|
  {
    if a == [] {
      assert a + b == b;
    } else {
      var first := if keep(a[0]) then [a[0]] else [];
      calc {
        Select(a + b, keep);
      == { assert (a + b)[0] == a[0] && (a + b)[1..] == a[1..] + b; }
        first + Select(a[1..] + b, keep);
      == { SelectAppend(a[1..], b, keep); }
        first + (Select(a[1..], keep) + Select(b, keep));
      ==
        Select(a, keep) + Select(b, keep);
      }
    }
  }

  /** A line `keep` refuses anywhere in `gs` leaves nothing to select. */
  lemma {:induction false} SelectNone(gs: seq<GraphLine>, keep: GraphLine -> bool)
    requires forall k :: 0 <= k < |gs| ==> !keep(gs[k])
    ensures Select(gs, keep) == []
    decreases |gs|
  {
    if gs != [] {
      SelectNone(gs[1..], keep);
    }
  }

  /** Every line `keep` accepts is selected. */
  lemma {:induction false} SelectKeeps(gs: seq<GraphLine>, keep: GraphLine -> bool, g: GraphLine)
    requires g in gs && keep(g)
    ensures g in Select(gs, keep)
    decreases |gs|
  {
    if gs[0] != g {
      assert g in gs[1..];
      SelectKeeps(gs[1..], keep, g);
    }
  }

  predicate IsNode(g: GraphLine) { g.Node? }
  predicate IsClick(g: GraphLine) { g.Click? }
  predicate IsEdge(g: GraphLine) { g.Edge? }

  /** The lines of one story split into its head (node, click), its edges and its blank line. */
  lemma StorySelect(s: Story, keep: GraphLine -> bool)
    ensures Select(StoryLines(s), keep)
         == Select([Node(s.id, BucketOf(s.currentState)), Click(s.id)], keep)
            + Select(EdgeLines(Refs(s), s.id), keep) + Select([Blank], keep)
  {
    var head := [Node(s.id, BucketOf(s.currentState)), Click(s.id)];
    var edges := EdgeLines(Refs(s), s.id);
    SelectAppend(head, edges, keep);
    SelectAppend(head + edges, [Blank], keep);
  }

  lemma OpeningSelect(keep: GraphLine -> bool)
    requires !keep(Header) && !keep(Blank) && forall b :: !keep(ClassDef(b))
    ensures Select(Opening(), keep) == []
  {
    SelectNone(Opening(), keep);
  }

  /** The node line and the click binding a story gets. */
  function NodeOf(s: Story): GraphLine {
    Node(s.id, BucketOf(s.currentState))
  }

  function ClickOf(s: Story): GraphLine {
    Click(s.id)
  }

  lemma OneNodePerStory(s: Story)
    ensures Select(StoryLines(s), IsNode) == [NodeOf(s)]
  {
    StorySelect(s, IsNode);
    SelectNone(EdgeLines(Refs(s), s.id), IsNode);
  }

  lemma OneClickPerStory(s: Story)
    ensures Select(StoryLines(s), IsClick) == [ClickOf(s)]
  {
    StorySelect(s, IsClick);
    SelectNone(EdgeLines(Refs(s), s.id), IsClick);
  }

  /** The node lines of the chart are the stories' nodes, one per story, in input order. */
  lemma NodesFollowStories(stories: seq<Story>)
    ensures var nodes := Select(DocLines(stories), IsNode);
      && |nodes| == |stories|
      && forall k :: 0 <= k < |stories| ==> nodes[k] == Node(stories[k].id, BucketOf(stories[k].currentState))
  {
    forall s: Story
      ensures Select(StoryLines(s), IsNode) == [NodeOf(s)]
    {
      OneNodePerStory(s);
    }
    OneLinePerStory(stories, IsNode, NodeOf);
    OpeningSelect(IsNode);
    SelectAppend(Opening(), StoriesLines(stories), IsNode);
    assert Select(DocLines(stories), IsNode) == Picks(stories, NodeOf);
  }

  /** The click bindings of the chart target the stories, one per story, in input order. */
  lemma ClicksFollowStories(stories: seq<Story>)
    ensures var clicks := Select(DocLines(stories), IsClick);
      && |clicks| == |stories|
      && forall k :: 0 <= k < |stories| ==> clicks[k] == Click(stories[k].id)
  {
    forall s: Story
      ensures Select(StoryLines(s), IsClick) == [ClickOf(s)]
    {
      OneClickPerStory(s);
    }
    OneLinePerStory(stories, IsClick, ClickOf);
    OpeningSelect(IsClick);
    SelectAppend(Opening(), StoriesLines(stories), IsClick);
    assert Select(DocLines(stories), IsClick) == Picks(stories, ClickOf);
  }

  /** The line `pick` makes of each story, in order. */
  function Picks(stories: seq<Story>, pick: Story -> GraphLine): (r: seq<GraphLine>)
    ensures |r| == |stories| && forall k :: 0 <= k < |stories| ==> r[k] == pick(stories[k])
  {
    if stories == [] then [] else [pick(stories[0])] + Picks(stories[1..], pick)
  }

  /** When `keep` picks exactly one line of every story, it picks one per story, in order. */
  lemma {:induction false} OneLinePerStory(stories: seq<Story>, keep: GraphLine -> bool, pick: Story -> GraphLine)
    requires forall s :: Select(StoryLines(s), keep) == [pick(s)]
    ensures Select(StoriesLines(stories), keep) == Picks(stories, pick)
    decreases |stories|
  {
    if stories != [] {
      SelectAppend(StoryLines(stories[0]), StoriesLines(stories[1..]), keep);
      OneLinePerStory(stories[1..], keep, pick);
    }
  }

  /** The number of references of each blocker, added up; the edge count of a story. */
  function BlockerRefCount(blockers: seq<Blocker>): nat {
    if blockers == [] then 0
    else |TicketNumbers(blockers[0].description)| + BlockerRefCount(blockers[1..])
  }

  function RefCount(s: Story): nat {
    match s.blockers
    case None => 0
    case Some(blockers) => BlockerRefCount(blockers)
  }

  function TotalRefs(stories: seq<Story>): nat {
    if stories == [] then 0 else RefCount(stories[0]) + TotalRefs(stories[1..])
  }

  lemma {:induction false} BlockerRefsCount(blockers: seq<Blocker>)
    ensures |BlockerRefs(blockers)| == BlockerRefCount(blockers)
    decreases |blockers|
  {
    if blockers != [] {
      BlockerRefsCount(blockers[1..]);
    }
  }

  /** The edges of the stories, story by story, each story's in reference order. */
  function AllEdges(stories: seq<Story>): seq<GraphLine> {
    if stories == [] then [] else EdgeLines(Refs(stories[0]), stories[0].id) + AllEdges(stories[1..])
  }

  /** The edge lines of the chart are the stories' edges: story by story, blockers outside, references inside. */
  lemma EdgesFollowReferences(stories: seq<Story>)
    ensures Select(DocLines(stories), IsEdge) == AllEdges(stories)
  {
    OpeningSelect(IsEdge);
    SelectAppend(Opening(), StoriesLines(stories), IsEdge);
    StoriesEdges(stories);
  }

  lemma {:induction false} StoriesEdges(stories: seq<Story>)
    ensures Select(StoriesLines(stories), IsEdge) == AllEdges(stories)
    decreases |stories|
  {
    if stories != [] {
      StoryEdges(stories[0]);
      StoriesEdges(stories[1..]);
      SelectAppend(StoryLines(stories[0]), StoriesLines(stories[1..]), IsEdge);
    }
  }

  lemma StoryEdges(s: Story)
    ensures Select(StoryLines(s), IsEdge) == EdgeLines(Refs(s), s.id)
  {
    SelectMiddle([Node(s.id, BucketOf(s.currentState)), Click(s.id)], EdgeLines(Refs(s), s.id), [Blank], IsEdge);
  }

  /** Keeping only the middle part's kind of line from `head + mid + tail`. */
  lemma SelectMiddle(head: seq<GraphLine>, mid: seq<GraphLine>, tail: seq<GraphLine>, keep: GraphLine -> bool)
    requires forall k :: 0 <= k < |head| ==> !keep(head[k])
    requires forall k :: 0 <= k < |mid| ==> keep(mid[k])
    requires forall k :: 0 <= k < |tail| ==> !keep(tail[k])
    ensures Select(head + mid + tail, keep) == mid
  {
    SelectAppend(head, mid, keep);
    SelectAppend(head + mid, tail, keep);
    SelectNone(head, keep);
    SelectAll(mid, keep);
    SelectNone(tail, keep);
  }

  lemma {:induction false} SelectAll(gs: seq<GraphLine>, keep: GraphLine -> bool)
    requires forall k :: 0 <= k < |gs| ==> keep(gs[k])
    ensures Select(gs, keep) == gs
    decreases |gs|
  {
    if gs != [] {
      SelectAll(gs[1..], keep);
      assert gs == [gs[0]] + gs[1..];
    }
  }

  /** The chart has exactly as many edges as the blockers' descriptions yield references. */
  lemma EdgeCount(stories: seq<Story>)
    ensures |Select(DocLines(stories), IsEdge)| == TotalRefs(stories)
  {
    EdgesFollowReferences(stories);
    AllEdgesCount(stories);
  }

  lemma {:induction false} AllEdgesCount(stories: seq<Story>)
    ensures |AllEdges(stories)| == TotalRefs(stories)
    decreases |stories|
  {
    if stories != [] {
      AllEdgesCount(stories[1..]);
      match stories[0].blockers {
        case None =>
        case Some(blockers) => BlockerRefsCount(blockers);
      }
    }
  }

  /**
    Every edge points from a reference of some story to that story, and every
    reference of every story has its edge.
   */
  lemma EdgesAreReferences(stories: seq<Story>)
    ensures forall e :: e in AllEdges(stories) ==>
              e.Edge? && exists k :: 0 <= k < |stories| && e.target == stories[k].id && e.source in Refs(stories[k])
    ensures forall k, r :: 0 <= k < |stories| && r in Refs(stories[k]) ==> Edge(r, stories[k].id) in AllEdges(stories)
  {
    EdgesHaveReferences(stories);
    ReferencesHaveEdges(stories);
  }

  lemma {:induction false} EdgesHaveReferences(stories: seq<Story>)
    ensures forall e :: e in AllEdges(stories) ==>
              e.Edge? && exists k :: 0 <= k < |stories| && e.target == stories[k].id && e.source in Refs(stories[k])
    decreases |stories|
  {
    if stories != [] {
      var s := stories[0];
      var here := EdgeLines(Refs(s), s.id);
      var rest := stories[1..];
      EdgesHaveReferences(rest);
      forall e | e in AllEdges(stories)
        ensures e.Edge? && exists k :: 0 <= k < |stories| && e.target == stories[k].id && e.source in Refs(stories[k])
      {
        if e in here {
          var j :| 0 <= j < |here| && here[j] == e;
          assert e.source == Refs(s)[j];
        } else {
          assert e in AllEdges(rest);
          var k :| 0 <= k < |rest| && e.target == rest[k].id && e.source in Refs(rest[k]);
          assert rest[k] == stories[k + 1];
        }
      }
    }
  }

  lemma {:induction false} ReferencesHaveEdges(stories: seq<Story>)
    ensures forall k, r :: 0 <= k < |stories| && r in Refs(stories[k]) ==> Edge(r, stories[k].id) in AllEdges(stories)
    decreases |stories|
  {
    if stories != [] {
      var s := stories[0];
      var here := EdgeLines(Refs(s), s.id);
      var rest := stories[1..];
      ReferencesHaveEdges(rest);
      forall k, r | 0 <= k < |stories| && r in Refs(stories[k])
        ensures Edge(r, stories[k].id) in AllEdges(stories)
      {
        if k == 0 {
          var j :| 0 <= j < |Refs(s)| && Refs(s)[j] == r;
          assert here[j] == Edge(r, s.id);
        } else {
          assert stories[k] == rest[k - 1];
        }
      }
    }
  }

  /** Every node's class is declared by a line before it. */
  lemma ClassesDeclaredFirst(stories: seq<Story>)
    ensures var gs := DocLines(stories);
      forall k :: 0 <= k < |gs| && gs[k].Node? ==> ClassDef(gs[k].bucket) in gs[..k]
  {
    var gs := DocLines(stories);
    var opening := Opening();
    assert gs[..OpeningLength] == opening;
    forall k | 0 <= k < |gs| && gs[k].Node?
      ensures ClassDef(gs[k].bucket) in gs[..k]
    {
      if k >= OpeningLength {
        var b := gs[k].bucket;
        var j := match b case Grey => 1 case Blue => 2 case Yellow => 3 case Green => 4 case Red => 5;
        assert opening[j] == ClassDef(b);
        assert gs[..k][j] == opening[j];
      }
    }
  }

  lemma {:induction false} NoRefsEachBlocker(blockers: seq<Blocker>)
    ensures BlockerRefs(blockers) == [] <==> forall k :: 0 <= k < |blockers| ==> TicketNumbers(blockers[k].description) == []
    decreases |blockers|
  {
    if blockers != [] {
      NoRefsEachBlocker(blockers[1..]);
      assert forall k :: 1 <= k < |blockers| ==> blockers[k] == blockers[1..][k - 1];
    }
  }

  /** No pattern matches anywhere in the description. */
  ghost predicate Unreferencing(description: string) {
    && NoMatchIn(ShortTag, description, 0, |description|)
    && NoMatchIn(CanonicalUrl, description, 0, |description|)
    && NoMatchIn(AlternateUrl, description, 0, |description|)
  }

  /** A story contributes no edge exactly when none of its blockers' descriptions matches any of the three patterns. */
  lemma NoReferencesNoEdges(blockers: seq<Blocker>)
    ensures BlockerRefs(blockers) == [] <==> forall k :: 0 <= k < |blockers| ==> Unreferencing(blockers[k].description)
  {
    NoRefsEachBlocker(blockers);
    forall k | 0 <= k < |blockers|
      ensures TicketNumbers(blockers[k].description) == [] <==> Unreferencing(blockers[k].description)
    {
      NoMatchNoIds(blockers[k].description);
    }
  }
}
