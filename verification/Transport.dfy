/** Following redirects by hand over a transport that exposes them. */
module Transport {
  import opened Options

  datatype Code = UntrustedOrigin | UnsafeRedirect | NetworkError

  /** One answer of a server; the status and the Location header are whatever it likes. */
  datatype Response = Response(status: int, location: Option<string>, body: int) | TransportFailed

  /** URL parsing and joining belong to the library: arbitrary functions here. */
  datatype Urls = Urls(origin: string -> Option<string>, join: (string, string) -> string)

  predicate IsRedirect(status: int) { status in {301, 302, 303, 307, 308} }

  predicate Allowed(urls: Urls, url: string, origins: set<string>) {
    urls.origin(url).Some? && urls.origin(url).value in origins
  }

  /** A redirect with a Location worth following. */
  predicate Follows(r: Response) {
    r.Response? && IsRedirect(r.status) && r.location.Some? && r.location.value != ""
  }

  /** The URLs requested so far are a chain of allowed, pairwise distinct redirect targets. */
  ghost predicate Chain(urls: Urls, origins: set<string>, server: (nat, string) -> Response, start: string,
                        requests: seq<string>)
  {
    && (requests != [] ==> requests[0] == start)
    && (forall i :: 0 <= i < |requests| ==> Allowed(urls, requests[i], origins))
    && (forall i, j :: 0 <= i < j < |requests| ==> requests[i] != requests[j])
    && (forall i :: 0 <= i < |requests| - 1 ==>
          && Follows(server(i, requests[i]))
          && requests[i + 1] == urls.join(requests[i], server(i, requests[i]).location.value))
  }

  /** What the last answer of a finished exchange means for its outcome. */
  ghost predicate Outcome(urls: Urls, origins: set<string>, maxRedirects: int, last: Response, requests: seq<string>,
                          r: Result<Response, Code>)
    requires requests != []
  {
    match r
    case Ok(response) => response == last && last.Response? && last.status == 200
    case Err(NetworkError) => last.TransportFailed? || (!IsRedirect(last.status) && last.status != 200)
    case Err(UnsafeRedirect) =>
      && last.Response? && IsRedirect(last.status)
      && (Follows(last) && |requests| <= maxRedirects ==>
            var target := urls.join(requests[|requests| - 1], last.location.value);
            !Allowed(urls, target, origins) || target in requests)
    case Err(UntrustedOrigin) => false
  }

  /**
   `open_https`: whatever the server answers, at most `maxRedirects + 1` requests go out, to pairwise distinct
   URLs of allowed origins, each joined from the Location of the one before; only a 200 response is returned, and
   every refusal is explained by the last answer.
   */
  method OpenHttps(urls: Urls, url: string, origins: set<string>, maxRedirects: int, server: (nat, string) -> Response)
    returns (r: Result<Response, Code>, requests: seq<string>)
    ensures |requests| <= if maxRedirects < 0 then 0 else maxRedirects + 1
    ensures Chain(urls, origins, server, url, requests)
    ensures requests != [] ==>
              Outcome(urls, origins, maxRedirects, server(|requests| - 1, requests[|requests| - 1]), requests, r)
    ensures requests == [] ==>
              r == Err(if maxRedirects < 0 then UnsafeRedirect else UntrustedOrigin)
              && (maxRedirects >= 0 ==> !Allowed(urls, url, origins))
  {
    hide IsRedirect, Allowed;
    var seen: set<string> := {};
    var current := url;
    requests := [];
    var redirects := 0;
    while redirects < maxRedirects + 1
      invariant 0 <= redirects && (maxRedirects >= 0 ==> redirects <= maxRedirects) && redirects == |requests|
      invariant maxRedirects < 0 ==> requests == []
      invariant seen == set u | u in requests
      invariant Chain(urls, origins, server, url, requests)
      invariant requests == [] ==> current == url
      invariant requests != [] ==>
                  && Allowed(urls, current, origins)
                  && Follows(server(redirects - 1, requests[redirects - 1]))
                  && current == urls.join(requests[redirects - 1],
                     server(redirects - 1, requests[redirects - 1]).location.value)
      decreases maxRedirects + 1 - redirects
    {
      if !Allowed(urls, current, origins) {
        return Err(UntrustedOrigin), requests;
      }
      if current in seen {
        return Err(UnsafeRedirect), requests;
      }
      seen := seen + {current};
      var response := server(redirects, current);
      requests := requests + [current];
      if response.TransportFailed? {
        return Err(NetworkError), requests;
      }
      if IsRedirect(response.status) {
        if response.location.None? || response.location.value == "" || redirects == maxRedirects {
          return Err(UnsafeRedirect), requests;
        }
        current := urls.join(current, response.location.value);
        if !Allowed(urls, current, origins) {
          return Err(UnsafeRedirect), requests;
        }
        redirects := redirects + 1;
      } else if response.status != 200 {
        return Err(NetworkError), requests;
      } else {
        return Ok(response), requests;
      }
    }
    return Err(UnsafeRedirect), requests;
  }
}
