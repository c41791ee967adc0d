/** The C side's only error path: `ASSERT(cond)` prints the failed condition
    and executes `__builtin_trap()`, which aborts the exported call. */
module Traps {

  datatype Trap = AssertionFailed(condition: string)
}
