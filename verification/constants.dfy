/**
 Server configuration: URL normalisation, environment defaults and the
 daily chat limits by subscription tier.
 */
module Constants {
  import opened Js

  const DefaultFrontendUrl := "http://localhost:5173"
  const DefaultBackendUrl := "http://localhost:3000"
  const DefaultJwtSecret := "your-jwt-secret-change-in-production"
  const DefaultPort: nat := 3000
  const DefaultNodeEnv := "development"

  /** `CHAT_LIMITS`: chats a user may create per day. */
  const FreeChatLimit: nat := 5
  const PremiumChatLimit: nat := 20

  /**
   `s.replace(/\/+$/, "")`: the longest prefix of `s` that does not end in
   '/', everything after it being '/'.
   */
  function StripTrailingSlashes(s: string): (r: string)
    ensures r <= s
    ensures forall i :: |r| <= i < |s| ==> s[i] == '/'
    ensures r == [] || r[|r| - 1] != '/'
    decreases |s|
  {
    if |s| > 0 && s[|s| - 1] == '/' then StripTrailingSlashes(s[..|s| - 1]) else s
  }

  /** `normalizeUrl(url)`: a missing or empty URL normalises to "". */
  function NormalizeUrl(url: Option<string>): string {
    StripTrailingSlashes(Or(url, ""))
  }

  /**
   Normalisation removes exactly the trailing run of '/': the result is a
   prefix of the input, only '/' was removed, and the result does not end in
   '/'. A missing or empty input gives "".
   */
  lemma NormalizeUrlSpec(url: Option<string>)
    ensures !Truthy(url) ==> NormalizeUrl(url) == ""
    ensures Truthy(url) ==> NormalizeUrl(url) <= url.value
    ensures Truthy(url) ==> forall i :: |NormalizeUrl(url)| <= i < |url.value| ==> url.value[i] == '/'
    ensures NormalizeUrl(url) == [] || NormalizeUrl(url)[|NormalizeUrl(url)| - 1] != '/'
  {
  }

  /** A URL that does not end in '/' is left unchanged. */
  lemma NormalizeUrlKeepsClean(u: string)
    requires u == [] || u[|u| - 1] != '/'
    ensures NormalizeUrl(Some(u)) == u
  {
  }

  /** Normalising twice is normalising once. */
  lemma NormalizeUrlIdempotent(url: Option<string>)
    ensures NormalizeUrl(Some(NormalizeUrl(url))) == NormalizeUrl(url)
  {
    NormalizeUrlKeepsClean(NormalizeUrl(url));
  }

  /** The process environment variables the configuration reads. */
  datatype Env = Env(
    frontendUrl: Option<string>,
    backendUrl: Option<string>,
    jwtSecret: Option<string>,
    port: Option<string>,
    nodeEnv: Option<string>)

  /** `PORT` is the environment string when set, otherwise the number 3000. */
  datatype Port = PortFromEnv(text: string) | PortNumber(number: nat)

  datatype EnvConfig = EnvConfig(
    frontendUrl: string,
    backendUrl: string,
    jwtSecret: string,
    port: Port,
    nodeEnv: string)

  /** `getEnvConfig()`: each unset or empty variable takes its default. */
  function GetEnvConfig(env: Env): (c: EnvConfig)
    ensures c.frontendUrl == NormalizeUrl(Some(Or(env.frontendUrl, DefaultFrontendUrl)))
    ensures c.backendUrl == NormalizeUrl(Some(Or(env.backendUrl, DefaultBackendUrl)))
    ensures !Truthy(env.frontendUrl) ==> c.frontendUrl == DefaultFrontendUrl
    ensures !Truthy(env.backendUrl) ==> c.backendUrl == DefaultBackendUrl
    ensures !Truthy(env.jwtSecret) ==> c.jwtSecret == DefaultJwtSecret
    ensures Truthy(env.jwtSecret) ==> c.jwtSecret == env.jwtSecret.value
    ensures !Truthy(env.port) ==> c.port == PortNumber(3000)
    ensures Truthy(env.port) ==> c.port == PortFromEnv(env.port.value)
    ensures !Truthy(env.nodeEnv) ==> c.nodeEnv == "development"
    ensures Truthy(env.nodeEnv) ==> c.nodeEnv == env.nodeEnv.value
    ensures c.frontendUrl == [] || c.frontendUrl[|c.frontendUrl| - 1] != '/'
    ensures c.backendUrl == [] || c.backendUrl[|c.backendUrl| - 1] != '/'
  {
    NormalizeUrlKeepsClean(DefaultFrontendUrl);
    NormalizeUrlKeepsClean(DefaultBackendUrl);
    EnvConfig(
      NormalizeUrl(Some(Or(env.frontendUrl, DefaultFrontendUrl))),
      NormalizeUrl(Some(Or(env.backendUrl, DefaultBackendUrl))),
      Or(env.jwtSecret, DefaultJwtSecret),
      if Truthy(env.port) then PortFromEnv(env.port.value) else PortNumber(DefaultPort),
      Or(env.nodeEnv, DefaultNodeEnv))
  }

  /** `getChatLimit(isPremium)`. */
  function GetChatLimit(isPremium: bool): nat {
    if isPremium then PremiumChatLimit else FreeChatLimit
  }
}
