/** The four screens of the interface, in the only order they are ever entered. */
module StageMachine {

  datatype Stage = Initiation | Alignment | Focus | Leap

  /** Position of a stage in the sequence. */
  function Rank(s: Stage): nat
  {
    match s
    case Initiation => 0
    case Alignment => 1
    case Focus => 2
    case Leap => 3
  }

  /** The stage that a stage's completion logic hands over to. Leap has none. */
  function Next(s: Stage): (r: Stage)
    requires s != Leap
    ensures Rank(r) == Rank(s) + 1
  {
    match s
    case Initiation => Alignment
    case Alignment => Focus
    case Focus => Leap
  }
}
