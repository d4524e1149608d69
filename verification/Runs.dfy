/** Runs of a session: what happens to it, one input after the other, until it listens again. */
module Runs {
  import opened Machine
  import S = SessionData

  datatype Step = Step(input: Input, io: S.Io)

  predicate InSession(s: Session) { s.data.Valid() && !s.phase.Accepting? }

  /** A run that stays within one session: it may end in `Accepting` but not go on from there. */
  predicate Feasible(o: Outcome, steps: seq<Step>)
    decreases |steps|
  {
    steps == [] || (InSession(o.session) && Raises(o.session, steps[0].input)
                   && Feasible(Extend(o, steps[0]), steps[1..]))
  }

  function Extend(o: Outcome, step: Step): Outcome
    requires o.session.data.Valid() && Raises(o.session, step.input)
  {
    Then(o, Handle(o.session, step.input, step.io))
  }

  function RunFrom(o: Outcome, steps: seq<Step>): Outcome
    requires Feasible(o, steps)
    decreases |steps|
  {
    if steps == [] then o else RunFrom(Extend(o, steps[0]), steps[1..])
  }
}
