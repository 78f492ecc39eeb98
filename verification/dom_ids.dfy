/**
  The element ids the page declares and the selection script looks up: one
  placeholder shown before any story is chosen, and one details block per
  story, named after the story's id.
 */
module DomIds {
  import opened Text

  const EmptyStateId: string := "empty-state"

  const DetailsPrefix: string := "story-details-"

  /** The id of the details block of the story whose id reads `storyId`. */
  function DetailsId(storyId: string): (id: string)
    ensures StartsWith(id, DetailsPrefix)
    ensures id[|DetailsPrefix|..] == storyId
  {
    DetailsPrefix + storyId
  }

  /** Different stories get different details blocks. */
  lemma DetailsIdInjective(a: string, b: string)
    requires DetailsId(a) == DetailsId(b)
    ensures a == b
  {
    assert DetailsId(a)[|DetailsPrefix|..] == DetailsId(b)[|DetailsPrefix|..];
  }

  /** No details block is the placeholder. */
  lemma DetailsIdNotEmptyState(storyId: string)
    ensures DetailsId(storyId) != EmptyStateId
  {
    assert DetailsId(storyId)[0] == 's';
    assert EmptyStateId[0] == 'e';
  }
}
