/**
 * football-proxy-server/src/server.ts: the proxy that forwards the app's
 * `/api/football` requests to football-data.org with the API key attached.
 * The environment, the request as the handler sees it, and what the upstream
 * call gives back are inputs; the Express response object is a class whose
 * methods are the calls the handler makes on it.
 */
module ProxyServer {
  import opened Wrappers
  import opened Text

  const UpstreamBase: string := "https://api.football-data.org/v4"
  const MountPath: string := "/api/football"

  /** The request the handler reads: `req.url`, `req.method` (`verb`) and the Origin header. */
  datatype Request = Request(url: string, verb: string, origin: Option<string>)

  /** The request the proxy sends upstream. */
  datatype Outbound = Outbound(url: string, verb: string, headers: map<string, string>)

  /**
   * What the upstream call came to: it threw (no connection, a bad URL), or a
   * response whose body parsed as JSON (its text) or did not (None).
   */
  datatype Upstream = Failed | Responded(status: int, json: Option<string>)

  /** What the proxy writes as the response body. */
  datatype Payload = UpstreamJson(text: string) | ErrorObject(error: string)

  /** The target URL: the base, then `req.url` with its first "/api/football" cut out. */
  function TargetUrl(reqUrl: string): string {
    UpstreamBase + ReplaceFirst(reqUrl, MountPath, "")
  }

  /** The target always starts with the football-data.org base. */
  lemma TargetUrlBase(reqUrl: string)
    ensures |TargetUrl(reqUrl)| >= |UpstreamBase|
    ensures TargetUrl(reqUrl)[..|UpstreamBase|] == UpstreamBase
  {
  }

  /** A URL without the mount path is appended as it is. */
  lemma TargetUrlUnmounted(reqUrl: string)
    requires !Occurs(reqUrl, MountPath)
    ensures TargetUrl(reqUrl) == UpstreamBase + reqUrl
  {
  }

  /** Only the leftmost "/api/football" is cut; text around it, later occurrences included, stays. */
  lemma TargetUrlCutsFirst(reqUrl: string, i: nat)
    requires OccursAt(reqUrl, MountPath, i)
    requires forall j: nat :: j < i ==> !OccursAt(reqUrl, MountPath, j)
    ensures TargetUrl(reqUrl) == UpstreamBase + reqUrl[..i] + reqUrl[i + |MountPath|..]
  {
    ReplaceFirstAtLeftmost(reqUrl, MountPath, "", i);
  }

  /** The headers of the outbound call: the API key and the JSON accept header, nothing else. */
  function OutboundHeaders(apiKey: string): (h: map<string, string>)
    ensures h.Keys == {"X-Auth-Token", "Accept"}
    ensures h["X-Auth-Token"] == apiKey && h["Accept"] == "application/json"
  {
    map["X-Auth-Token" := apiKey, "Accept" := "application/json"]
  }

  /** The forwarded request: the target URL, the incoming method (`verb`), the two headers. */
  function Forwarded(req: Request, apiKey: string): Outbound {
    Outbound(TargetUrl(req.url), req.verb, OutboundHeaders(apiKey))
  }

  /**
   * What goes upstream: the incoming method; the API key and the JSON accept
   * header and no incoming header, the Origin included; and the base followed
   * by `req.url` with its leftmost "/api/football" cut out, or by the whole
   * of `req.url` when it has none.
   */
  lemma ForwardedRequest(req: Request, apiKey: string, i: nat)
    ensures Forwarded(req, apiKey).verb == req.verb
    ensures Forwarded(req, apiKey).headers.Keys == {"X-Auth-Token", "Accept"}
    ensures "Origin" !in Forwarded(req, apiKey).headers
    ensures Forwarded(req, apiKey).headers["X-Auth-Token"] == apiKey
    ensures !Occurs(req.url, MountPath) ==> Forwarded(req, apiKey).url == UpstreamBase + req.url
    ensures OccursAt(req.url, MountPath, i) && (forall j: nat :: j < i ==> !OccursAt(req.url, MountPath, j)) ==>
      Forwarded(req, apiKey).url == UpstreamBase + req.url[..i] + req.url[i + |MountPath|..]
  {
    var h := OutboundHeaders(apiKey);
    assert "Origin" !in h.Keys;
    if OccursAt(req.url, MountPath, i) && (forall j: nat :: j < i ==> !OccursAt(req.url, MountPath, j)) {
      TargetUrlCutsFirst(req.url, i);
    }
  }

  /** `req.headers.origin || '*'`: the request's Origin when it is non-empty, any origin otherwise. */
  function AllowOrigin(origin: Option<string>): string {
    OrIfEmpty(origin, "*")
  }

  /** The four CORS headers of a successful answer. */
  function CorsHeaders(origin: Option<string>): (h: map<string, string>)
    ensures h.Keys == {"Access-Control-Allow-Origin", "Access-Control-Allow-Methods",
                       "Access-Control-Allow-Headers", "Access-Control-Allow-Credentials"}
    ensures h["Access-Control-Allow-Origin"] == AllowOrigin(origin)
    ensures h["Access-Control-Allow-Methods"] == "GET, POST, OPTIONS"
    ensures h["Access-Control-Allow-Headers"] == "Content-Type, Accept, Authorization"
    ensures h["Access-Control-Allow-Credentials"] == "true"
  {
    map[
      "Access-Control-Allow-Origin" := AllowOrigin(origin),
      "Access-Control-Allow-Methods" := "GET, POST, OPTIONS",
      "Access-Control-Allow-Headers" := "Content-Type, Accept, Authorization",
      "Access-Control-Allow-Credentials" := "true"]
  }

  /** Setting the four headers one after the other adds exactly CorsHeaders. */
  lemma CorsInOrder(h: map<string, string>, origin: Option<string>)
    ensures h["Access-Control-Allow-Origin" := AllowOrigin(origin)]
             ["Access-Control-Allow-Methods" := "GET, POST, OPTIONS"]
             ["Access-Control-Allow-Headers" := "Content-Type, Accept, Authorization"]
             ["Access-Control-Allow-Credentials" := "true"] == h + CorsHeaders(origin)
  {
  }

  /** The generic body of a failed proxying. */
  const InternalError: Payload := ErrorObject("Internal Server Error")

  /** The Express response: its status, the headers set so far and the JSON body once sent. */
  class Response {
    var status: int
    var headers: map<string, string>
    var body: Option<Payload>

    /** A fresh response: status 200, no header from the handler yet, nothing sent. */
    constructor ()
      ensures status == 200 && headers == map[] && body == None
    {
      status := 200;
      headers := map[];
      body := None;
    }

    /** `res.header(name, value)`. */
    method Header(name: string, value: string)
      modifies this
      ensures headers == old(headers)[name := value]
      ensures status == old(status) && body == old(body)
    {
      headers := headers[name := value];
    }

    /** `res.status(code)`. */
    method Status(code: int)
      modifies this
      ensures status == code
      ensures headers == old(headers) && body == old(body)
    {
      status := code;
    }

    /** `res.json(payload)`. */
    method Json(payload: Payload)
      modifies this
      ensures body == Some(payload)
      ensures status == old(status) && headers == old(headers)
    {
      body := Some(payload);
    }
  }

  /**
   * The `/api/football` handler. It forwards the request and returns what it
   * sent. When the upstream answers with JSON, the four CORS headers are set
   * and that JSON is sent with the status left as it was, whatever the
   * upstream status. When the call throws or its body is not JSON, status 500
   * and the generic error body are sent, with no header set by the handler.
   */
  method Handle(req: Request, apiKey: string, fetch: Outbound -> Upstream, res: Response)
    returns (sent: Outbound)
    modifies res
    ensures sent == Forwarded(req, apiKey)
    ensures fetch(sent).Responded? && fetch(sent).json.Some? ==>
      && res.body == Some(UpstreamJson(fetch(sent).json.value))
      && res.headers == old(res.headers) + CorsHeaders(req.origin)
      && res.status == old(res.status)
    ensures !(fetch(sent).Responded? && fetch(sent).json.Some?) ==>
      && res.body == Some(InternalError)
      && res.headers == old(res.headers)
      && res.status == 500
  {
    sent := Forwarded(req, apiKey);
    var upstream := fetch(sent);
    if upstream.Responded? && upstream.json.Some? {
      ghost var before := res.headers;
      res.Header("Access-Control-Allow-Origin", AllowOrigin(req.origin));
      res.Header("Access-Control-Allow-Methods", "GET, POST, OPTIONS");
      res.Header("Access-Control-Allow-Headers", "Content-Type, Accept, Authorization");
      res.Header("Access-Control-Allow-Credentials", "true");
      CorsInOrder(before, req.origin);
      res.Json(UpstreamJson(upstream.json.value));
    } else {
      res.Status(500);
      res.Json(InternalError);
    }
  }

  /** How the process starts: it exits with a code, or listens on a port. */
  datatype Boot = Exit(code: int) | Listen(port: string)

  /**
   * The module's top level: a missing or empty FOOTBALL_DATA_API_KEY ends the
   * process with code 1 before anything listens; otherwise it listens on PORT
   * when that is non-empty, on 3001 otherwise.
   */
  function Startup(apiKey: Option<string>, port: Option<string>): (b: Boot)
    ensures b.Exit? <==> apiKey.None? || apiKey.value == ""
    ensures b.Exit? ==> b.code == 1
    ensures b.Listen? ==> b.port == (if port.Some? && port.value != "" then port.value else "3001")
  {
    if apiKey.None? || apiKey.value == "" then Exit(1)
    else Listen(if port.Some? && port.value != "" then port.value else "3001")
  }
}
