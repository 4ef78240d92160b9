/** Runs of the state machines: any sequence of steps, the latest one outermost. */
module Runs {
  datatype Trace<A> = Begin | Then(before: Trace<A>, step: A)
}
