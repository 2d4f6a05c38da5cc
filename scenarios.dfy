/** Worked cases of URL resolution, the "account exists" test and probes of
    two sites against a simulated server. Each case names its site and
    server through parameters pinned down by `requires`. */
module Scenarios {
  import opened Wrappers
  import opened Strings
  import opened Wmn
  import opened WmnProperties

  /** A second placeholder is left in the URL. */
  lemma SecondTokenKept(site: Site, host: string, query: string)
    requires host == "https://example.com/" && query == "?ref={account}"
    requires site.uriCheck == host + Token + query
    ensures UrlForUser(site, "bob") == host + "bob" + query
  {
    AbsentHead(host, Token);
    UrlInsertsUserVerbatim(site, host, query, "bob");
  }

  /** A profile page with the right status and the fragment is a match. */
  lemma ProfileFound(site: Site)
    requires site.eCode == 200 && site.eString == "profile"
    ensures Matches(site, 200, "user profile here")
  {
    FragmentAtMatches(site, "user profile here", 5);
  }

  /** The right status without the fragment is not a match. */
  lemma ProfileFragmentMissing(site: Site)
    requires site.eCode == 200 && site.eString == "profile"
    ensures !Matches(site, 200, "not found")
  {
    AbsentHead("not found", "profile");
  }

  /** The fragment under the wrong status is not a match. */
  lemma ProfileWrongStatus(site: Site)
    requires site.eCode == 200 && site.eString == "profile"
    ensures !Matches(site, 404, "profile")
  {
  }

  /** Alpha (existing-account signature 200, "hi") probed for any user
      against a server that answers its URL with 200 "hi there": a match. */
  method ProbeAlpha(alpha: Site, server: Client, user: string) returns (found: bool)
    requires alpha.eCode == 200 && alpha.eString == "hi"
    requires server.requestError(UrlForUser(alpha, user)) == None
    requires server.send(Get(UrlForUser(alpha, user))) == Ok(Response(200, Ok("hi there")))
    ensures found
  {
    FragmentAtMatches(alpha, "hi there", 0);
    var err, trace;
    found, err, trace := CheckUser(alpha, user, server);
  }

  /** Beta (existing-account signature 404, "gone") probed for any user
      against a server that answers its URL with 404 "page gone": a match
      too, since a 404 is what Beta shows for an existing account. */
  method ProbeBeta(beta: Site, server: Client, user: string) returns (found: bool)
    requires beta.eCode == 404 && beta.eString == "gone"
    requires server.requestError(UrlForUser(beta, user)) == None
    requires server.send(Get(UrlForUser(beta, user))) == Ok(Response(404, Ok("page gone")))
    ensures found
  {
    FragmentAtMatches(beta, "page gone", 5);
    var err, trace;
    found, err, trace := CheckUser(beta, user, server);
  }

  /** A server that cannot be reached (a refused connection, a timeout or a
      cancelled context) gives no match, whatever the site and user. */
  method ProbeUnreachable(site: Site, server: Client, user: string, cause: string)
    returns (found: bool, err: Option<ProbeError>)
    requires server.requestError(UrlForUser(site, user)) == None
    requires server.send(Get(UrlForUser(site, user))) == Err(cause)
    ensures !found && err == Some(PerformRequestError(cause))
    ensures err.value.Message() == "unable to perform request: " + cause
  {
    var trace;
    found, err, trace := CheckUser(site, user, server);
  }

  /** A registry document that decodes to no sites is refused with
      "No Sites found", after all three stages have run. */
  method LoadEmptyRegistry(url: string, feed: Feed, bytes: string)
    returns (sites: seq<Site>, err: Option<LoadError>)
    requires feed.get(url) == Ok(Response(200, Ok(bytes)))
    requires feed.unmarshal(bytes) == Ok(WmnData([]))
    ensures sites == [] && err == Some(NoSites) && err.value.Message() == "No Sites found"
  {
    var trace;
    sites, err, trace := SitesFromURL(url, feed);
  }

  /** A registry fetched with an error status is still decoded: the status
      code of the response is never looked at. */
  method LoadDespiteErrorStatus(url: string, feed: Feed, bytes: string, s: Site)
    returns (sites: seq<Site>, err: Option<LoadError>)
    requires feed.get(url) == Ok(Response(500, Ok(bytes)))
    requires feed.unmarshal(bytes) == Ok(WmnData([s]))
    ensures err == None && sites == [s]
  {
    var trace;
    sites, err, trace := SitesFromURL(url, feed);
  }
}
