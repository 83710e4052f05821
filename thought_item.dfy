/** One thought in the feed (src/components/ThoughtItem.tsx); only its like button's disabled state is logic. */
module ThoughtItem {

  import opened Wrappers
  import opened App

  /** The like button is disabled exactly while a like on this thought's id is in flight. */
  function LikeButtonDisabled(isLiking: Option<string>, thought: Thought): (disabled: bool)
    ensures disabled <==> isLiking == Some(thought.id)
  {
    match isLiking
    case None => false
    case Some(id) => id == thought.id
  }
}
