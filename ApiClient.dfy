/** The request plumbing of the web client
    (frontend/src/integrations/api/client.ts): the API base URL, endpoint
    cleaning, the request headers and the error message a failed request
    raises. The fetch itself is not modelled. */
module ApiClient {
  import opened Wrappers
  import opened Text

  const DefaultServer := "http://localhost:5000"

  /** `replace(/\/$/, '')`: at most one trailing '/' removed. */
  function StripTrailingSlash(s: string): (r: string)
    ensures EndsWith(s, "/") ==> r == s[..|s| - 1]
    ensures !EndsWith(s, "/") ==> r == s
  {
    if s != [] && s[|s| - 1] == '/' then s[..|s| - 1] else s
  }

  /** `API_BASE_URL`: the configured URL (the default when unset or
      empty), one trailing '/' dropped, "/api" appended unless present. */
  function BaseUrl(configured: Option<string>): (url: string)
    ensures EndsWith(url, "/api")
    ensures configured.None? || configured.value == "" ==> url == DefaultServer + "/api"
    ensures configured.Some? && EndsWith(configured.value, "/api/") ==>
      url == configured.value[..|configured.value| - 1]
    ensures configured.Some? && configured.value != "" && !EndsWith(StripTrailingSlash(configured.value), "/api") ==>
      url == StripTrailingSlash(configured.value) + "/api"
    ensures configured.Some? && configured.value != "" && EndsWith(StripTrailingSlash(configured.value), "/api") ==>
      url == StripTrailingSlash(configured.value)
  {
    var raw := if configured.Some? && configured.value != "" then configured.value else DefaultServer;
    var base := StripTrailingSlash(raw);
    if EndsWith(base, "/api") then base else base + "/api"
  }

  /** Normalising a normalised base changes nothing. */
  lemma {:induction false} BaseUrlIdempotent(configured: Option<string>)
    ensures BaseUrl(Some(BaseUrl(configured))) == BaseUrl(configured)
  {
    var url := BaseUrl(configured);
    assert url[|url| - 1] == 'i';
    assert !EndsWith(url, "/");
  }

  /** The base never ends in '/', so a cleaned endpoint that does not itself
      start with "//" meets it with exactly one slash: no double slash at
      the join. */
  lemma {:induction false} NoDoubleSlashAtJoin(configured: Option<string>, endpoint: string)
    requires !StartsWith(endpoint, "//")
    ensures var base := BaseUrl(configured);
      var url := RequestUrl(base, endpoint);
      && |url| > |base| > 0
      && url[..|base|] == base
      && url[|base| - 1] != '/' && url[|base|] == '/'
      && (|url| > |base| + 1 ==> url[|base| + 1] != '/')
  {
    var base := BaseUrl(configured);
    var url := RequestUrl(base, endpoint);
    assert base[|base| - 4..] == "/api";
    assert url[|base| - 1] == base[|base| - 1] == 'i';
    var e := CleanEndpoint(endpoint);
    assert url[|base|..] == e;
    if |url| > |base| + 1 {
      assert url[|base| + 1] == e[1];
      if StartsWith(endpoint, "/") {
        assert e == endpoint;
        assert |endpoint| >= 2;
        assert endpoint[..2] != "//";
        assert endpoint[..2] == [endpoint[0], endpoint[1]];
      } else {
        assert e[1..] == endpoint;
        assert e[1] == endpoint[0];
        assert endpoint[0] != '/';
      }
    }
  }

  /** Only one slash is stripped: a base ending in "//" keeps one of them. */
  lemma OneSlashStripped(s: string)
    ensures BaseUrl(Some(s + "//")) == s + "//api"
  {
    var raw := s + "//";
    var base := s + "/";
    assert StripTrailingSlash(raw) == base;
    assert base[|base| - 1] == '/';
    assert |base| >= 4 ==> base[|base| - 4..][3] == '/';
  }

  /** `cleanEndpoint`: the endpoint with a leading '/' ensured. */
  function CleanEndpoint(endpoint: string): (e: string)
    ensures StartsWith(e, "/")
    ensures StartsWith(endpoint, "/") ==> e == endpoint
    ensures !StartsWith(endpoint, "/") ==> e == "/" + endpoint
  {
    if StartsWith(endpoint, "/") then endpoint else "/" + endpoint
  }

  /** The request URL: base and cleaned endpoint. */
  function RequestUrl(base: string, endpoint: string): (url: string)
    ensures StartsWith(url, base) && url[|base|..] == CleanEndpoint(endpoint)
  {
    base + CleanEndpoint(endpoint)
  }

  /** The headers of a request. The spread of the caller's options comes
      last, so headers passed by the caller replace the built ones
      wholesale; otherwise JSON content type plus a bearer token when one
      is stored (an empty token is falsy). */
  function Headers(token: Option<string>, custom: Option<map<string, string>>): (h: map<string, string>)
    ensures custom.Some? ==> h == custom.value
    ensures custom.None? ==> "Content-Type" in h && h["Content-Type"] == "application/json"
    ensures custom.None? ==> ("Authorization" in h <==> token.Some? && token.value != "")
    ensures custom.None? && "Authorization" in h ==> h["Authorization"] == "Bearer " + token.value
  {
    if custom.Some? then custom.value
    else
      map["Content-Type" := "application/json"]
      + (if token.Some? && token.value != "" then map["Authorization" := "Bearer " + token.value] else map[])
  }

  const ConnectionMessage := "Could not connect to the server. Please ensure the backend is running."

  /** The body of a non-ok response: unreadable as JSON, or an object
      whose `error` field may be missing. */
  datatype ErrorBody = Unreadable | Body(error: Option<string>)

  /** The rewrite in the catch block. */
  function Friendly(message: string): (m: string)
    ensures m != "Failed to fetch"
    ensures message == "Failed to fetch" ==> m == ConnectionMessage
    ensures message != "Failed to fetch" ==> m == message
  {
    if message == "Failed to fetch" then ConnectionMessage else message
  }

  /** The message raised for a non-ok response: the body's `error` when it
      is a non-empty string, "Network error" when the body is not JSON,
      otherwise "HTTP <status>"; then the catch block's rewrite. */
  function ResponseErrorMessage(body: ErrorBody, status: nat): (m: string)
    ensures m != "Failed to fetch"
    ensures body.Unreadable? ==> m == "Network error"
    ensures body.Body? && body.error.Some? && body.error.value != "" && body.error.value != "Failed to fetch" ==>
      m == body.error.value
    ensures body.Body? && (body.error.None? || body.error.value == "") ==> m == "HTTP " + NatToString(status)
  {
    var code := "HTTP " + NatToString(status);
    assert code[0] == 'H';
    var raw :=
      match body
      case Unreadable => "Network error"
      case Body(e) => if e.Some? && e.value != "" then e.value else code;
    Friendly(raw)
  }
}
