/**
 * The part of MVC routing the home controller relies on: route-value
 * dictionaries, as the controller builds them for redirects and links, and
 * the binding of such a dictionary back onto the parameters of the Show
 * action (`string slug, int? version`).
 */
module Routing {
  import opened Wrappers

  /** A value held in a route-value dictionary: a string, an integer, or null. */
  datatype RouteValue = Text(text: string) | Number(number: int) | Null

  /** A route-value dictionary, keyed by parameter name. */
  type RouteValues = map<string, RouteValue>

  /** The arguments the Show action receives. */
  datatype ShowRequest = ShowRequest(slug: string, version: Option<int>)

  /** The route values of a request to Show, as the URL /:slug or /:slug/:version carries them. */
  function RequestRoute(request: ShowRequest): (route: RouteValues)
    ensures BindShow(route) == Some(request)
  {
    match request.version
    case None => map["slug" := Text(request.slug)]
    case Some(v) => map["slug" := Text(request.slug), "version" := Number(v)]
  }

  /**
   * The route a redirect generated while serving a request leads to. A key
   * the redirect's values leave out is taken from the current request's
   * values (MVC's ambient route values); a key given as null is cleared and
   * does not appear in the generated URL.
   */
  function GenerateRoute(ambient: RouteValues, values: RouteValues): (route: RouteValues)
    ensures forall k :: k in values && values[k] != Null ==> k in route && route[k] == values[k]
    ensures forall k :: k in values && values[k] == Null ==> k !in route
    ensures forall k :: k !in values ==> (k in route <==> k in ambient && ambient[k] != Null)
    ensures forall k :: k !in values && k in route ==> route[k] == ambient[k]
  {
    map k | k in values.Keys + ambient.Keys && (if k in values then values[k] else ambient[k]) != Null
          :: if k in values then values[k] else ambient[k]
  }

  /**
   * Binds a route onto Show's parameters. A route without a textual "slug"
   * does not reach Show at all. The nullable `version` parameter receives the
   * integer under "version", and null when that key is absent or null.
   */
  function BindShow(route: RouteValues): Option<ShowRequest> {
    if "slug" in route && route["slug"].Text? then
      var version := if "version" in route && route["version"].Number?
                     then Some(route["version"].number)
                     else None;
      Some(ShowRequest(route["slug"].text, version))
    else
      None
  }
}
