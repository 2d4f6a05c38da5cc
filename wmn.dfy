/** The per-site decision logic of package wmn (src/wmn/wmn.go): site
    definitions, probe URL resolution, the "account exists" test, the probe
    of one site and the loading of the site registry.

    Network and JSON work is not modelled; each such call is a field of a
    Client or a Feed value, a function from its input to the outcome the call
    would have. The ladders CheckUser and SitesFromURL call them in the
    source's order and report in `trace` which calls they made. */
module Wmn {
  import opened Wrappers
  import opened Strings

  /** Where the registry is published. */
  const DefaultURL: string := "https://raw.githubusercontent.com/WebBreacher/WhatsMyName/refs/heads/main/wmn-data.json"

  /** The placeholder in a probe URL template that stands for the username. */
  const Token: string := "{account}"

  /** One target service, as decoded from an element of the feed's "sites" array. */
  datatype Site = Site(
    name: string,
    uriCheck: string,   // probe URL template
    eCode: int,         // status code of an existing account
    eString: string,    // body fragment of an existing account
    mString: string,    // body fragment of a missing account (never consulted)
    mCode: int,         // status code of a missing account (never consulted)
    known: seq<string>, // usernames known to exist (never consulted)
    cat: string)

  /** The decoded registry document. */
  datatype WmnData = WmnData(sites: seq<Site>)

  /** The probe URL for `user`: the first `{account}` of the template becomes
      `user`, verbatim, and surrounding spaces are cut off. */
  function UrlForUser(site: Site, user: string): (url: string)
    ensures Trimmed(url)
  {
    TrimSpace(ReplaceFirst(site.uriCheck, Token, user))
  }

  /** The "account exists" test on a response: its status is the site's
      existing-account code and its body contains the existing-account fragment. */
  function Matches(site: Site, statusCode: int, body: string): (b: bool)
    ensures b <==> statusCode == site.eCode && exists j :: OccursAt(body, site.eString, j)
  {
    statusCode == site.eCode && Contains(body, site.eString)
  }

  // ---------------------------------------------------------------------
  // Probing one site

  datatype Request = Get(url: string)

  /** A response whose status line arrived; `body` is the outcome of reading
      the whole body. */
  datatype Response = Response(statusCode: int, body: Result<string>)

  /** The HTTP machinery a probe uses. `requestError(url)` is the error that
      building a GET request for `url` reports (a URL that does not parse), if
      any; `send(req)` is the outcome of performing `req`, with certificate
      checks off and the caller's deadline applied. */
  datatype Client = Client(
    requestError: string -> Option<string>,
    send: Request -> Result<Response>)

  /** The calls a probe makes, in the order it makes them. */
  datatype Step = BuildRequest(url: string) | Send(req: Request) | ReadBody

  /** A probe's failure, one kind per stage. */
  datatype ProbeError =
    | CreateRequestError(cause: string)
    | PerformRequestError(cause: string)
    | ReadBodyError(cause: string)
  {
    function Message(): string {
      match this
      case CreateRequestError(c) => "unable to create request: " + c
      case PerformRequestError(c) => "unable to perform request: " + c
      case ReadBodyError(c) => "error reading response body: " + c
    }
  }

  /** Probes `site` for `user`: builds the request for the resolved URL,
      performs it, reads the body and applies Matches. The first stage that
      fails ends the probe with its error and `found == false`; the stages
      after it are not attempted. */
  method CheckUser(site: Site, user: string, client: Client)
    returns (found: bool, err: Option<ProbeError>, trace: seq<Step>)
    ensures err.Some? ==> !found
    ensures trace != [] && trace[0] == BuildRequest(UrlForUser(site, user))
    ensures var url := UrlForUser(site, user);
      match client.requestError(url)
      case Some(cause) =>
        err == Some(CreateRequestError(cause)) && trace == [BuildRequest(url)]
      case None =>
        match client.send(Get(url))
        case Err(cause) =>
          err == Some(PerformRequestError(cause)) && trace == [BuildRequest(url), Send(Get(url))]
        case Ok(response) =>
          && trace == [BuildRequest(url), Send(Get(url)), ReadBody]
          && match response.body
             case Err(cause) => err == Some(ReadBodyError(cause))
             case Ok(body) => err == None && found == Matches(site, response.statusCode, body)
  {
    var url := UrlForUser(site, user);
    trace := [BuildRequest(url)];
    var reqErr := client.requestError(url);
    if reqErr.Some? {
      return false, Some(CreateRequestError(reqErr.value)), trace;
    }
    var req := Get(url);

    trace := trace + [Send(req)];
    var response := client.send(req);
    if response.Err? {
      return false, Some(PerformRequestError(response.cause)), trace;
    }

    trace := trace + [ReadBody];
    var body := response.value.body;
    if body.Err? {
      return false, Some(ReadBodyError(body.cause)), trace;
    }

    found := Matches(site, response.value.statusCode, body.value);
    err := None;
  }

  // ---------------------------------------------------------------------
  // Loading the registry

  /** The registry's external collaborators: `get(url)` is the outcome of an
      HTTP GET of `url`, `unmarshal(bytes)` the outcome of decoding `bytes`
      as a registry document (a document without "sites" decodes to none). */
  datatype Feed = Feed(
    get: string -> Result<Response>,
    unmarshal: string -> Result<WmnData>)

  /** The calls the loader makes, in the order it makes them. */
  datatype LoadStep = Fetch(url: string) | ReadFeed | Decode

  /** A loader's failure, one kind per stage. */
  datatype LoadError =
    | GetError(url: string, cause: string)
    | ReadError(url: string, cause: string)
    | UnmarshalError(cause: string)
    | NoSites
  {
    function Message(): string {
      match this
      case GetError(u, c) => "unable to get Sites from URL '" + u + "': " + c
      case ReadError(u, c) => "unable to read body from URL '" + u + "': " + c
      case UnmarshalError(c) => "unable to unmarshal byteData: " + c
      case NoSites => "No Sites found"
    }
  }

  /** Loads the site list published at `url`: fetch, read the body, decode it
      and refuse an empty list. The first stage that fails ends the load
      with its error and no sites; on success the decoded list is returned
      unchanged and is not empty. The response's status code is not looked at. */
  method SitesFromURL(url: string, feed: Feed)
    returns (sites: seq<Site>, err: Option<LoadError>, trace: seq<LoadStep>)
    ensures err.None? ==> sites != []
    ensures err.Some? ==> sites == []
    ensures trace != [] && trace[0] == Fetch(url)
    ensures match feed.get(url)
      case Err(cause) =>
        err == Some(GetError(url, cause)) && trace == [Fetch(url)]
      case Ok(response) =>
        match response.body
        case Err(cause) =>
          err == Some(ReadError(url, cause)) && trace == [Fetch(url), ReadFeed]
        case Ok(bytes) =>
          && trace == [Fetch(url), ReadFeed, Decode]
          && match feed.unmarshal(bytes)
             case Err(cause) => err == Some(UnmarshalError(cause))
             case Ok(w) =>
               if w.sites == [] then err == Some(NoSites) else err == None && sites == w.sites
  {
    trace := [Fetch(url)];
    var response := feed.get(url);
    if response.Err? {
      return [], Some(GetError(url, response.cause)), trace;
    }

    trace := trace + [ReadFeed];
    var byteValue := response.value.body;
    if byteValue.Err? {
      return [], Some(ReadError(url, byteValue.cause)), trace;
    }

    trace := trace + [Decode];
    var decoded := feed.unmarshal(byteValue.value);
    if decoded.Err? {
      return [], Some(UnmarshalError(decoded.cause)), trace;
    }
    var w := decoded.value;

    if |w.sites| == 0 {
      return [], Some(NoSites), trace;
    }
    return w.sites, None, trace;
  }

  /** Loads the site list from DefaultURL, with the same outcome per stage
      as SitesFromURL. */
  method Sites(feed: Feed) returns (sites: seq<Site>, err: Option<LoadError>)
    ensures err.None? ==> sites != []
    ensures err.Some? ==> sites == []
    ensures match feed.get(DefaultURL)
      case Err(cause) => err == Some(GetError(DefaultURL, cause))
      case Ok(response) =>
        match response.body
        case Err(cause) => err == Some(ReadError(DefaultURL, cause))
        case Ok(bytes) =>
          match feed.unmarshal(bytes)
          case Err(cause) => err == Some(UnmarshalError(cause))
          case Ok(w) =>
            if w.sites == [] then err == Some(NoSites) else err == None && sites == w.sites
  {
    var trace;
    sites, err, trace := SitesFromURL(DefaultURL, feed);
  }
}
