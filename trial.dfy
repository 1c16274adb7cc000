/** The part of an engine trial the hash functions read: its moves, oldest first. */
module Trial {
  import opened JavaInt

  /** A move as the hash functions see it: the site it goes to (-1 for a pass)
      and the id of the player or component it places there. */
  datatype Move = Move(to: int32, what: int32)

  predicate IsPass(m: Move)
  {
    m.to == -1
  }
}
