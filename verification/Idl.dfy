// The status values exchanged by the CLI, the hub and the agents.
module Idl {
  datatype StepStatus = UNKNOWN_STATUS | PENDING | RUNNING | COMPLETE | FAILED
}
