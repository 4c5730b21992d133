// A finite run of a system, as the events that happened so far, newest outermost.
module Traces {

  datatype Trace<+E> = Begin | Then(past: Trace<E>, last: E)
}
