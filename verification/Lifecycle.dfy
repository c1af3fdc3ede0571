/** The task state machine: states, terminal sinks and the two tables of legal edges. */
module Lifecycle {

  datatype Option<+T> = None | Some(value: T)

  datatype TaskState = Proposed | Accepted | Waiting | Executing | Done | Dismissed | Halted

  predicate IsTerminal(s: TaskState) {
    s in {Done, Dismissed, Halted}
  }

  /** The only state changes a task may make. */
  predicate IsLegal(from: TaskState, to: TaskState) {
    match from
    case Proposed => to in {Accepted, TaskState.Dismissed, Halted}
    case Accepted => to in {Executing, Waiting, Halted}
    case Waiting => to in {Executing, Halted}
    case Executing => to in {Done, Halted}
    case _ => false
  }

  /** The extra edge of tasks that came in from an intake signal. */
  predicate IsLegalIntake(from: TaskState, to: TaskState) {
    IsLegal(from, to) || (from == Accepted && to == Dismissed)
  }

  /** Each state is entered from these states only, and a terminal one is left for none. */
  lemma StatesExact(from: TaskState, to: TaskState)
    ensures IsLegal(from, to) <==>
      match to
      case Proposed => false
      case Accepted => from == Proposed
      case Waiting => from == Accepted
      case Executing => from == Accepted || from == Waiting
      case Done => from == Executing
      case Dismissed => from == Proposed
      case Halted => from != Done && from != TaskState.Dismissed && from != Halted
    ensures IsLegalIntake(from, to) && !IsLegal(from, to) <==> from == Accepted && to == Dismissed
    ensures IsTerminal(from) <==> from == Done || from == TaskState.Dismissed || from == Halted
    ensures IsTerminal(from) ==> !IsLegal(from, to) && !IsLegalIntake(from, to)
  {
  }

  /** Legal edges only climb this rank, so no task ever returns to an earlier state. */
  function Rank(s: TaskState): nat {
    match s
    case Proposed => 0
    case Accepted => 1
    case Waiting => 2
    case Executing => 3
    case _ => 4
  }
}
