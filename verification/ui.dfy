/**
  The selection script of the page. The chart calls `ticketNodeCallback`
  with the clicked node's id; the script remembers the last clicked story in
  `currentNode`, hides what was shown before (the previous story's details
  block, or the placeholder when nothing was clicked yet) and shows the
  clicked story's block. Showing and hiding is done by setting an element's
  class: `not-selected` hides it, `selected` shows it, and an element
  without a class (the placeholder as emitted) is shown.

  The document is a map from element id to class. Looking up an id the page
  does not declare yields `null` in the script, and setting a property of
  `null` throws: such a call ends in `Threw`, carrying the state as it was
  when the exception left the callback.
 */
module Ui {
  import opened Text
  import opened DomIds

  datatype ClassName = Unset | NotSelected | Selected

  type Dom = map<string, ClassName>

  datatype Ui = Ui(currentNode: Option<string>, dom: Dom)

  datatype Outcome = Returned(ui: Ui) | Threw(ui: Ui)

  /** An element is on screen unless its class is `not-selected`. */
  predicate Visible(dom: Dom, id: string) {
    id in dom && dom[id] != NotSelected
  }

  /** The script's `if (currentNode)`: `null` and the empty string are false. */
  predicate Truthy(current: Option<string>) {
    current.Some? && current.value != ""
  }

  /** Sets the class of element `id`; `None` when the page has no such element. */
  function SetClass(dom: Dom, id: string, c: ClassName): (r: Option<Dom>)
    ensures r.None? <==> id !in dom
    ensures r.Some? ==> r.value.Keys == dom.Keys && r.value[id] == c
    ensures r.Some? ==> forall k :: k in dom && k != id ==> r.value[k] == dom[k]
  {
    if id in dom then Some(dom[id := c]) else None
  }

  /** `hideEmptyState` */
  function HideEmptyState(dom: Dom): Option<Dom> {
    SetClass(dom, EmptyStateId, NotSelected)
  }

  /** `hideStory` */
  function HideStory(dom: Dom, storyId: string): Option<Dom> {
    SetClass(dom, DetailsId(storyId), NotSelected)
  }

  /** `showStory` */
  function ShowStory(dom: Dom, storyId: string): Option<Dom> {
    SetClass(dom, DetailsId(storyId), Selected)
  }

  /** The element a click hides: the current story's block, or the placeholder while there is none. */
  function HiddenBy(u: Ui): string {
    if Truthy(u.currentNode) then DetailsId(u.currentNode.value) else EmptyStateId
  }

  /**
    `ticketNodeCallback`: hide what the previous state showed, show the
    clicked story, remember it. A missing element stops the callback where
    it is looked up.
   */
  function TicketNodeCallback(u: Ui, storyId: string): (o: Outcome)
    ensures o.Returned? <==> HiddenBy(u) in u.dom && DetailsId(storyId) in u.dom
    ensures o.Returned? ==>
      && o.ui.currentNode == Some(storyId)
      && o.ui.dom.Keys == u.dom.Keys
      && o.ui.dom[DetailsId(storyId)] == Selected
      && (HiddenBy(u) != DetailsId(storyId) ==> o.ui.dom[HiddenBy(u)] == NotSelected)
      && (forall k :: k in u.dom && k != HiddenBy(u) && k != DetailsId(storyId) ==> o.ui.dom[k] == u.dom[k])
    ensures o.Threw? ==>
      && o.ui.currentNode == u.currentNode
      && o.ui.dom.Keys == u.dom.Keys
      && (forall k :: k in u.dom && k != HiddenBy(u) ==> o.ui.dom[k] == u.dom[k])
      && (HiddenBy(u) in u.dom ==> o.ui.dom[HiddenBy(u)] == NotSelected)
  {
    var hidden := if Truthy(u.currentNode) then HideStory(u.dom, u.currentNode.value) else HideEmptyState(u.dom);
    match hidden
    case None => Threw(u)
    case Some(afterHide) =>
      match ShowStory(afterHide, storyId)
      case None => Threw(Ui(u.currentNode, afterHide))
      case Some(afterShow) => Returned(Ui(Some(storyId), afterShow))
  }

  /** Clicking the same story a second time changes nothing. */
  lemma ClickSameTwice(u: Ui, storyId: string)
    requires storyId != ""
    requires TicketNodeCallback(u, storyId).Returned?
    ensures TicketNodeCallback(TicketNodeCallback(u, storyId).ui, storyId) == TicketNodeCallback(u, storyId)
  {
    var v := TicketNodeCallback(u, storyId).ui;
    var w := TicketNodeCallback(v, storyId);
    assert HiddenBy(v) == DetailsId(storyId);
    assert w.ui.dom == v.dom;
  }

  // ---------------------------------------------------------------------------
  // The page's initial state and the invariant clicks keep

  /** The ids the page declares for stories with the given ids. */
  function PageIds(storyIds: seq<string>): (ids: set<string>)
    ensures EmptyStateId in ids
    ensures forall s :: s in storyIds ==> DetailsId(s) in ids
  {
    {EmptyStateId} + set s | s in storyIds :: DetailsId(s)
  }

  /** The element the state puts on screen: the current story's block, or the placeholder. */
  function Shown(u: Ui): string {
    if u.currentNode.Some? then DetailsId(u.currentNode.value) else EmptyStateId
  }

  /** The class every element has in a well-formed state. */
  function Expected(u: Ui, id: string): ClassName {
    if id != Shown(u) then NotSelected
    else if u.currentNode.Some? then Selected
    else Unset
  }

  /** Story ids as the chart writes them: never empty. */
  predicate Named(storyIds: seq<string>) {
    forall s :: s in storyIds ==> s != ""
  }

  /**
    A well-formed state for a page with the given stories: the page's
    elements only, the current story (if any) is one of them, and exactly the
    shown element is on screen.
   */
  predicate Consistent(u: Ui, storyIds: seq<string>) {
    && u.dom.Keys == PageIds(storyIds)
    && (u.currentNode.Some? ==> u.currentNode.value in storyIds)
    && (forall k :: k in u.dom ==> u.dom[k] == Expected(u, k))
  }

  /** The page as loaded: no story chosen, the placeholder without a class, every details block hidden. */
  function Initial(storyIds: seq<string>): (u: Ui)
    ensures Consistent(u, storyIds)
    ensures u.currentNode == None
    ensures u.dom[EmptyStateId] == Unset
    ensures forall s :: s in storyIds ==> u.dom[DetailsId(s)] == NotSelected
  {
    var u := Ui(None, map k | k in PageIds(storyIds) :: if k == EmptyStateId then Unset else NotSelected);
    forall k | k in u.dom
      ensures u.dom[k] == Expected(u, k)
    {
    }
    forall s | s in storyIds
      ensures DetailsId(s) != EmptyStateId
    {
      DetailsIdNotEmptyState(s);
    }
    u
  }

  /**
    A click on a story of the page returns, selects that story and keeps the
    state well-formed.
   */
  lemma CallbackKeepsConsistent(u: Ui, storyIds: seq<string>, storyId: string)
    requires Named(storyIds) && Consistent(u, storyIds) && storyId in storyIds
    ensures TicketNodeCallback(u, storyId).Returned?
    ensures Consistent(TicketNodeCallback(u, storyId).ui, storyIds)
    ensures TicketNodeCallback(u, storyId).ui.currentNode == Some(storyId)
  {
    var o := TicketNodeCallback(u, storyId);
    assert HiddenBy(u) == Shown(u);
    assert HiddenBy(u) in u.dom;
    var v := o.ui;
    DetailsIdNotEmptyState(storyId);
    forall k | k in v.dom
      ensures v.dom[k] == Expected(v, k)
    {
      if k != Shown(u) && k != DetailsId(storyId) {
        assert v.dom[k] == u.dom[k];
        if u.currentNode.Some? {
          DetailsIdNotEmptyState(u.currentNode.value);
        }
      }
    }
  }

  /** The script's state after a sequence of clicks; a click that throws leaves its partial effect and the next click still runs. */
  function Run(u: Ui, clicks: seq<string>): Ui
    decreases |clicks|
  {
    if clicks == [] then u else Run(TicketNodeCallback(u, clicks[0]).ui, clicks[1..])
  }

  /**
    Clicks on the page's own stories never throw, keep the state well-formed,
    and leave the last clicked story current.
   */
  lemma {:induction false} RunKeepsConsistent(u: Ui, storyIds: seq<string>, clicks: seq<string>)
    requires Named(storyIds) && Consistent(u, storyIds)
    requires forall c :: c in clicks ==> c in storyIds
    ensures Consistent(Run(u, clicks), storyIds)
    ensures clicks != [] ==> Run(u, clicks).currentNode == Some(clicks[|clicks| - 1])
    ensures clicks == [] ==> Run(u, clicks) == u
    decreases |clicks|
  {
    if clicks != [] {
      CallbackKeepsConsistent(u, storyIds, clicks[0]);
      var v := TicketNodeCallback(u, clicks[0]).ui;
      RunKeepsConsistent(v, storyIds, clicks[1..]);
      if |clicks| > 1 {
        assert clicks[1..][|clicks[1..]| - 1] == clicks[|clicks| - 1];
      }
    }
  }

  /** Every click of a sequence on the page's stories returns normally. */
  lemma {:induction false} RunNeverThrows(u: Ui, storyIds: seq<string>, clicks: seq<string>, i: nat)
    requires Named(storyIds) && Consistent(u, storyIds)
    requires forall c :: c in clicks ==> c in storyIds
    requires i < |clicks|
    ensures TicketNodeCallback(Run(u, clicks[..i]), clicks[i]).Returned?
  {
    RunKeepsConsistent(u, storyIds, clicks[..i]);
    CallbackKeepsConsistent(Run(u, clicks[..i]), storyIds, clicks[i]);
  }

  /**
    In a well-formed state exactly one element is on screen: the placeholder
    while no story has been clicked, the current story's block afterwards.
    In particular at most one block is `selected`, and it is the current
    story's.
   */
  lemma OneVisible(u: Ui, storyIds: seq<string>)
    requires Consistent(u, storyIds)
    ensures Shown(u) in u.dom && Visible(u.dom, Shown(u))
    ensures forall k :: Visible(u.dom, k) ==> k == Shown(u)
    ensures forall k :: k in u.dom && u.dom[k] == Selected ==> u.currentNode.Some? && k == DetailsId(u.currentNode.value)
  {
    assert Shown(u) in PageIds(storyIds);
  }

  /** After clicks on the page's stories the placeholder is on screen exactly when there were none. */
  lemma PlaceholderUntilFirstClick(storyIds: seq<string>, clicks: seq<string>)
    requires Named(storyIds)
    requires forall c :: c in clicks ==> c in storyIds
    ensures Visible(Run(Initial(storyIds), clicks).dom, EmptyStateId) <==> clicks == []
    ensures clicks != [] ==>
      var last := DetailsId(clicks[|clicks| - 1]);
      last in Run(Initial(storyIds), clicks).dom && Run(Initial(storyIds), clicks).dom[last] == Selected
  {
    var u := Run(Initial(storyIds), clicks);
    RunKeepsConsistent(Initial(storyIds), storyIds, clicks);
    assert EmptyStateId in u.dom;
    if clicks != [] {
      DetailsIdNotEmptyState(clicks[|clicks| - 1]);
      assert DetailsId(clicks[|clicks| - 1]) in PageIds(storyIds);
    }
  }

  /**
    A click on an id the page has no block for throws after the hiding step:
    the current story stays the same but nothing is on screen any more.
   */
  lemma UnknownClickHidesAll(u: Ui, storyIds: seq<string>, storyId: string)
    requires Named(storyIds) && Consistent(u, storyIds) && storyId !in storyIds
    ensures TicketNodeCallback(u, storyId).Threw?
    ensures TicketNodeCallback(u, storyId).ui.currentNode == u.currentNode
    ensures forall k :: !Visible(TicketNodeCallback(u, storyId).ui.dom, k)
  {
    if DetailsId(storyId) in u.dom {
      DetailsIdNotEmptyState(storyId);
      var s :| s in storyIds && DetailsId(s) == DetailsId(storyId);
      DetailsIdInjective(s, storyId);
      assert false;
    }
    assert HiddenBy(u) == Shown(u);
    assert Shown(u) in PageIds(storyIds);
  }

  /**
    Clicks on the page's stories from the page as loaded: none throws,
    exactly one element is on screen afterwards, the placeholder until the
    first click and the last clicked story's block from then on.
   */
  lemma ClicksFromLoad(storyIds: seq<string>, clicks: seq<string>)
    requires Named(storyIds)
    requires forall c :: c in clicks ==> c in storyIds
    ensures forall i :: 0 <= i < |clicks| ==>
              TicketNodeCallback(Run(Initial(storyIds), clicks[..i]), clicks[i]).Returned?
    ensures var u := Run(Initial(storyIds), clicks);
      && Visible(u.dom, Shown(u))
      && (forall k :: Visible(u.dom, k) ==> k == Shown(u))
      && (clicks == [] <==> Shown(u) == EmptyStateId)
      && (clicks != [] ==> Shown(u) == DetailsId(clicks[|clicks| - 1]))
  {
    var init := Initial(storyIds);
    forall i | 0 <= i < |clicks|
      ensures TicketNodeCallback(Run(init, clicks[..i]), clicks[i]).Returned?
    {
      RunNeverThrows(init, storyIds, clicks, i);
    }
    var u := Run(init, clicks);
    RunKeepsConsistent(init, storyIds, clicks);
    OneVisible(u, storyIds);
    if clicks != [] {
      DetailsIdNotEmptyState(clicks[|clicks| - 1]);
    }
  }
}
