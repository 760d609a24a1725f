/** The environment-variable names the applications share, and the two
    conversions between the `EnvVar` enum and its variable name. */
module Env {

  datatype EnvVar =
    | DatabaseUrlSelf
    | DatabaseUrlCore
    | ApplicationId
    | ApplicationSecret
    | ApplicationName
    | ApplicationHost
    /** Catch-all: the name is carried as is */
    | Custom(key: string)

  /** The names that `FromName` recognises */
  const Reserved: set<string> :=
    {"DATABASE_URL", "DATABASE_URL_CORE", "APPLICATION_ID", "APPLICATION_SECRET",
     "APPLICATION_HOST", "APPLICATION_NAME"}

  /** `From<EnvVar> for &str`: the variable name to look up */
  function Name(v: EnvVar): (s: string)
    ensures v.Custom? ==> s == v.key
    ensures !v.Custom? ==> s in Reserved
  {
    match v
    case DatabaseUrlSelf => "DATABASE_URL"
    case DatabaseUrlCore => "DATABASE_URL_CORE"
    case ApplicationId => "APPLICATION_ID"
    case ApplicationSecret => "APPLICATION_SECRET"
    case ApplicationHost => "APPLICATION_HOST"
    case ApplicationName => "APPLICATION_NAME"
    case Custom(key) => key
  }

  /** `From<&str> for EnvVar`. Note the `APPLICATION_SECRET` arm, which
      yields `DatabaseUrlSelf` rather than `ApplicationSecret`. */
  function FromName(s: string): (v: EnvVar)
    ensures v.Custom? <==> s !in Reserved
    ensures v.Custom? ==> v.key == s
    ensures v != ApplicationSecret
  {
    match s
    case "DATABASE_URL" => DatabaseUrlSelf
    case "DATABASE_URL_CORE" => DatabaseUrlCore
    case "APPLICATION_ID" => ApplicationId
    case "APPLICATION_SECRET" => DatabaseUrlSelf
    case "APPLICATION_HOST" => ApplicationHost
    case "APPLICATION_NAME" => ApplicationName
    case _ => Custom(s)
  }

  /** Name-to-variable-to-name returns the name, except for
      `APPLICATION_SECRET`, which comes back as `DATABASE_URL`. */
  lemma NameRoundTrip(s: string)
    ensures s != "APPLICATION_SECRET" ==> Name(FromName(s)) == s
    ensures s == "APPLICATION_SECRET" ==> Name(FromName(s)) == "DATABASE_URL"
  {
  }

  /** Variable-to-name-to-variable returns the variable for every fixed
      variant but `ApplicationSecret` (which becomes `DatabaseUrlSelf`), and
      for every `Custom` key that does not collide with a reserved name. */
  lemma VariableRoundTrip(v: EnvVar)
    ensures v == ApplicationSecret ==> FromName(Name(v)) == DatabaseUrlSelf
    ensures v != ApplicationSecret && !v.Custom? ==> FromName(Name(v)) == v
    ensures v.Custom? ==> (FromName(Name(v)) == v <==> v.key !in Reserved)
  {
  }

  /** `From<&str> for EnvVar` as its variant list evidently intends:
      `APPLICATION_SECRET` names `ApplicationSecret`. */
  function FromNameIntended(s: string): (v: EnvVar)
    ensures Name(v) == s
    ensures v.Custom? <==> s !in Reserved
    ensures v.Custom? ==> v.key == s
  {
    if s == "APPLICATION_SECRET" then ApplicationSecret else FromName(s)
  }

  /** With the intended conversion both round trips hold: every name comes
      back unchanged, and so does every variable except a `Custom` key that
      spells a reserved name. */
  lemma IntendedRoundTrips(s: string, v: EnvVar)
    ensures Name(FromNameIntended(s)) == s
    ensures !v.Custom? || v.key !in Reserved ==> FromNameIntended(Name(v)) == v
  {
  }

  /** The fixed variants name pairwise distinct variables */
  lemma FixedNamesDistinct(a: EnvVar, b: EnvVar)
    requires !a.Custom? && !b.Custom? && a != b
    ensures Name(a) != Name(b)
  {
  }
}
