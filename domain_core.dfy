/** Deployment environments shared by the services. */
module DomainCore {
  datatype DeploymentEnv = DEV | STAGING | PROD

  /** The string value of an environment (the enum is a `str` enum). */
  function DeploymentEnvValue(e: DeploymentEnv): string
  {
    match e
    case DEV => "dev"
    case STAGING => "staging"
    case PROD => "prod"
  }

  /** The three members have distinct values, so none is an alias of another. */
  lemma DeploymentEnvValueInjective(a: DeploymentEnv, b: DeploymentEnv)
    requires DeploymentEnvValue(a) == DeploymentEnvValue(b)
    ensures a == b
  {
  }
}
