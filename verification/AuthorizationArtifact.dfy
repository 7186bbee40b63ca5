/** The skeleton every governed authorization artifact shares. */
module AuthorizationArtifact {
  import opened Options

  datatype Status = Active | Revoked

  /** A demand the outer terms make must be kept by the inner ones; an absent demand is no demand. */
  predicate FlagWithin(inner: Option<bool>, outer: Option<bool>) {
    outer == Some(true) ==> inner == Some(true)
  }
}
