/** The authenticated identity of a tool call (`DeployerInfo` in `pkg/exoskeleton/auth.go`). */
module Caller {
  import opened Wrappers

  datatype Deployer = Deployer(
    provider: string, email: string, subject: string, displayName: string, agentType: string)

  /** An authenticated caller other than a platform operator. */
  predicate IsOidc(caller: Option<Deployer>) {
    caller.Some? && caller.value.provider != "bearer-token"
  }
}
