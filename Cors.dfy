/** The server's cross-origin rule (backend/src/server.ts): a fixed list of
    frontend origins plus an optional configured one. */
module Cors {
  import opened Wrappers

  const LocalFrontend := "http://localhost:8080"
  const DeployedFrontend := "https://seeker-employer.vercel.app"

  /** The configured origins with the falsy ones filtered out: the
      `FRONTEND_URL` setting counts only when it is set and non-empty. */
  function AllowedOrigins(frontendUrl: Option<string>): (origins: seq<string>)
    ensures forall i | 0 <= i < |origins| :: origins[i] != ""
    ensures LocalFrontend in origins && DeployedFrontend in origins
    ensures |origins| == 3 <==> frontendUrl.Some? && frontendUrl.value != ""
    ensures forall o :: o in origins <==>
      o == LocalFrontend || o == DeployedFrontend || (frontendUrl.Some? && frontendUrl.value != "" && o == frontendUrl.value)
  {
    [LocalFrontend, DeployedFrontend]
      + (if frontendUrl.Some? && frontendUrl.value != "" then [frontendUrl.value] else [])
  }

  datatype Decision = Allow | Deny(message: string)

  /** The origin callback: a request without an Origin header (or with an
      empty one) is allowed, as is a listed origin; anything else is
      refused. */
  function CheckOrigin(origin: Option<string>, allowed: seq<string>): (d: Decision)
    ensures d == Allow <==> origin.None? || origin.value == "" || origin.value in allowed
    ensures d != Allow ==> d == Deny("Not allowed by CORS")
  {
    if origin.None? || origin.value == "" then Allow
    else if origin.value in allowed then Allow
    else Deny("Not allowed by CORS")
  }

  /** An origin outside the two fixed frontends is admitted exactly when it
      is the configured one. */
  lemma {:induction false} OnlyConfiguredExtraOrigin(frontendUrl: Option<string>, origin: string)
    requires origin != "" && origin != LocalFrontend && origin != DeployedFrontend
    ensures CheckOrigin(Some(origin), AllowedOrigins(frontendUrl)) == Allow <==>
      frontendUrl == Some(origin)
  {
    var origins := AllowedOrigins(frontendUrl);
    assert origin in origins <==> frontendUrl.Some? && frontendUrl.value != "" && origin == frontendUrl.value;
  }
}
