/** Values shared by the extraction and the cleaning stage. */
module Common {

  /** A value the Reddit API may leave out (an author whose account is gone). */
  datatype Option<+T> = None | Some(value: T)

  /** The author name written in place of an absent author, by both stages. */
  const Deleted: string := "[deleted]"
}
