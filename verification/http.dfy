/**
 * The requests the client sends and the answers it reads, reduced to what
 * its decisions depend on. Sending is a function supplied by the caller.
 */
module Http {
  import opened Optional
  import opened Site

  datatype Method = Get | Post | Put | Patch | Delete

  /** The request line's method name, as `HTTPMethod.rawValue` spells it. */
  function MethodName(m: Method): string
  {
    match m
    case Get => "GET"
    case Post => "POST"
    case Put => "PUT"
    case Patch => "PATCH"
    case Delete => "DELETE"
  }

  /**
   * A request: its method (`verb`) and address, the `referer` header, the
   * `X-CSRF-Token` header, whether `x-ic-request: true` is sent, the
   * `X-HTTP-Method-Override` header, and the form fields of the body.
   */
  datatype Request = Request(
    verb: Method,
    url: string,
    referrer: string,
    csrfToken: Option<string>,
    icRequest: bool,
    methodOverride: Option<Method>,
    form: map<string, string>)

  /**
   * What came back: `Failed` when the transfer threw; otherwise the HTTP
   * status (none when the response is not an HTTP one), the `Retry-After`
   * and `X-IC-Redirect` headers, and the body decoded as UTF-8.
   */
  datatype Response =
    | Failed
    | Received(status: Option<int>, retryAfter: Option<string>, icRedirect: Option<string>, body: string)

  /** The verdict of every simple mutation: an HTTP 200. */
  predicate IsOk(r: Response)
  {
    r.Received? && r.status == Some(200)
  }

  /** `statusCode ?? 404`, with a failed transfer also reported as 404. */
  function StatusOr404(r: Response): (code: int)
    ensures r.Received? && r.status.Some? ==> code == r.status.value
    ensures r.Failed? || r.status.None? ==> code == 404
  {
    match r
    case Failed => 404
    case Received(status, _, _, _) => status.GetOr(404)
  }

  /** An address under the site's web API, `/api/web/…`. */
  function ApiUrl(segments: seq<string>): string
  {
    PageUrl(["api", "web"] + segments)
  }

  /** An API address of two or three components, spelled out. */
  lemma ApiUrlSpelled(kind: string, id: string, action: string)
    ensures ApiUrl([kind, id]) == BaseUrl + "/api/web/" + kind + "/" + id
    ensures ApiUrl([kind, id, action]) == BaseUrl + "/api/web/" + kind + "/" + id + "/" + action
  {
    PageUrlSnoc([], "api");
    PageUrlSnoc(["api"], "web");
    PageUrlSnoc(["api", "web"], kind);
    PageUrlSnoc(["api", "web", kind], id);
    PageUrlSnoc(["api", "web", kind, id], action);
    assert [] + ["api"] == ["api"];
    assert ["api"] + ["web"] == ["api", "web"];
    assert ["api", "web"] + [kind] == ["api", "web", kind];
    assert ["api", "web", kind] + [id] == ["api", "web", kind, id];
    assert ["api", "web", kind, id] + [action] == ["api", "web", kind, id, action];
    assert ["api", "web"] + [kind, id] == ["api", "web", kind, id];
    assert ["api", "web"] + [kind, id, action] == ["api", "web", kind, id, action];
    assert PageUrl(["api", "web"]) == BaseUrl + "/api/web";
    assert PageUrl(["api", "web", kind]) == BaseUrl + "/api/web/" + kind;
  }
}
