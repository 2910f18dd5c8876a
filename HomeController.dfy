/**
 * The decision logic of Compilify's home controller: how a request for a
 * snippet addressed by slug and optional version is resolved (Show, Latest),
 * which link a save reports back (Save), and what a validation request
 * returns (Validate).
 *
 * The post repository is a value handed in (`PostStore` for its reads, a
 * function for its save) and the C# compiler is a function from a snippet's
 * command text and class declarations to its compile errors. The controller
 * never looks inside an error, so the error type is a type parameter `E`.
 */
module HomeController {
  import opened Wrappers
  import opened Routing

  /** A saved snippet: its address (slug, version), its command text and its class declarations. */
  datatype Post = Post(slug: string, version: int, content: string, classes: string)

  /**
   * What the controller reads from the post repository: the post stored
   * under each (slug, version), and for each slug the number it reports as
   * the latest version (below 1 when the slug is unknown).
   */
  datatype PostStore = PostStore(versions: map<(string, int), Post>, latestVersion: string -> int)

  /** The compiler: errors of a command compiled together with class declarations. */
  type Compiler<E> = (string, string) -> seq<E>

  /** What the Show page displays: the post and its compile errors. */
  datatype PostViewModel<E> = PostViewModel(post: Post, errors: seq<E>)

  /**
   * The outcomes of Show and Latest. Both redirects go to the Show action;
   * they carry the route values the redirect is built from.
   */
  datatype ActionResult<E> =
    | RedirectPermanent(route: RouteValues)
    | Redirect(route: RouteValues)
    | NotFound
    | ShowPost(viewModel: PostViewModel<E>)

  /** The JSON data Save answers with: the saved address and the link to it. */
  datatype SaveResponse = SaveResponse(slug: string, version: int, url: RouteValues)

  /** The form Validate receives. */
  datatype ValidateViewModel = ValidateViewModel(command: string, classes: string)

  /** The repository's GetVersion: the stored post, or null. */
  function GetVersion(store: PostStore, slug: string, version: int): Option<Post> {
    if (slug, version) in store.versions then Some(store.versions[(slug, version)]) else None
  }

  /** C#'s lifted `<=` on `int?`: false whenever the left operand is null. */
  predicate LiftedAtMost(version: Option<int>, bound: int) {
    match version
    case None => false
    case Some(v) => v <= bound
  }

  /** Show once a concrete version is chosen: look the post up, compile it, or answer not found. */
  function ShowVersion<E>(store: PostStore, compile: Compiler<E>, slug: string, version: int): (r: ActionResult<E>)
    ensures r.NotFound? || r.ShowPost?
    ensures r.NotFound? <==> (slug, version) !in store.versions
    ensures r.ShowPost? ==> r.viewModel.post == store.versions[(slug, version)]
    ensures r.ShowPost? ==> r.viewModel.errors == compile(r.viewModel.post.content, r.viewModel.post.classes)
  {
    match GetVersion(store, slug, version)
    case None => NotFound
    case Some(post) => ShowPost(PostViewModel(post, compile(post.content, post.classes)))
  }

  /**
   * GET /:slug and /:slug/:version. A version of at most 1 is sent, for good,
   * to the versionless URL; an absent version is NOT caught by that test (the
   * lifted comparison is false for null) and shows version 1; any other
   * version is shown as asked.
   */
  function Show<E>(store: PostStore, compile: Compiler<E>, slug: string, version: Option<int>): (r: ActionResult<E>)
    ensures r.RedirectPermanent? <==> version.Some? && version.value <= 1
    ensures r.RedirectPermanent? ==> "version" in r.route && r.route["version"] == Null
    ensures r.RedirectPermanent? ==>
              BindShow(GenerateRoute(RequestRoute(ShowRequest(slug, version)), r.route)) == Some(ShowRequest(slug, None))
    ensures !r.Redirect?
    ensures version.None? ==> r == ShowVersion(store, compile, slug, 1)
    ensures version.Some? && version.value > 1 ==> r == ShowVersion(store, compile, slug, version.value)
  {
    if LiftedAtMost(version, 1) then
      RedirectPermanent(map["slug" := Text(slug), "version" := Null])
    else
      ShowVersion(store, compile, slug, version.GetOr(1))
  }

  /**
   * GET /:slug/latest: not found below 1, else a temporary redirect to that
   * version. The request's own route values hold only the slug.
   */
  function Latest<E>(store: PostStore, slug: string): (r: ActionResult<E>)
    ensures r.NotFound? <==> store.latestVersion(slug) < 1
    ensures !r.NotFound? ==>
              r.Redirect? &&
              BindShow(GenerateRoute(map["slug" := Text(slug)], r.route)) == Some(ShowRequest(slug, Some(store.latestVersion(slug))))
  {
    var latest := store.latestVersion(slug);
    if latest < 1 then NotFound
    else Redirect(map["slug" := Text(slug), "version" := Number(latest)])
  }

  /** The route values Save builds for the link to a saved post: the version only above 1. */
  function SaveRoute(slug: string, version: int): (route: RouteValues)
    ensures "slug" in route && route["slug"] == Text(slug)
    ensures "version" in route <==> version > 1
    ensures "version" in route ==> route["version"] == Number(version)
    ensures route.Keys <= {"slug", "version"}
  {
    var route := map["slug" := Text(slug)];
    if version > 1 then route["version" := Number(version)] else route
  }

  /**
   * POST Save: the repository stores the post and returns the saved post;
   * the answer reports its slug and version unchanged and the link to it.
   */
  function Save(repoSave: (string, Post) -> Post, slug: string, post: Post): (r: SaveResponse)
    ensures r.slug == repoSave(slug, post).slug && r.version == repoSave(slug, post).version
    ensures "slug" in r.url && r.url["slug"] == Text(r.slug)
    ensures "version" in r.url <==> r.version > 1
    ensures "version" in r.url ==> r.url["version"] == Number(r.version)
    ensures r.url.Keys <= {"slug", "version"}
  {
    var result := repoSave(slug, post);
    SaveResponse(result.slug, result.version, SaveRoute(result.slug, result.version))
  }

  /**
   * POST Validate: the compiler's errors for the command and classes,
   * materialised into a fresh array (the `ToArray` call).
   */
  method Validate<E(0)>(compile: Compiler<E>, viewModel: ValidateViewModel) returns (errors: array<E>)
    ensures errors[..] == compile(viewModel.command, viewModel.classes)
  {
    var found := compile(viewModel.command, viewModel.classes);
    errors := new E[|found|];
    var i := 0;
    while i < |found|
      invariant 0 <= i <= |found|
      invariant forall k :: 0 <= k < i ==> errors[k] == found[k]
    {
      errors[i] := found[i];
      i := i + 1;
    }
  }

  /**
   * What a client that requests Show ends up with after following at most
   * `hops` redirects. Each redirect's URL is generated against the route
   * values of the request being served.
   */
  function Visit<E>(store: PostStore, compile: Compiler<E>, request: ShowRequest, hops: nat): ActionResult<E>
    decreases hops
  {
    var r := Show(store, compile, request.slug, request.version);
    if hops > 0 && r.RedirectPermanent? then
      match BindShow(GenerateRoute(RequestRoute(request), r.route))
      case Some(next) => Visit(store, compile, next, hops - 1)
      case None => r
    else
      r
  }

  /**
   * The canonical version of a Show request: the one the request finally
   * displays. Version 1 when absent or at most 1.
   */
  function CanonicalVersion(version: Option<int>): int {
    if version.Some? && version.value > 1 then version.value else 1
  }

  /**
   * Addressing /:slug/1 (or 0, or a negative version) and /:slug display the
   * same post: the first redirects permanently to the second, which shows
   * version 1, without consulting the store.
   */
  lemma CanonicalRedirect<E>(store: PostStore, compile: Compiler<E>, slug: string, version: int)
    requires version <= 1
    ensures Show(store, compile, slug, Some(version)).RedirectPermanent?
    ensures Visit(store, compile, ShowRequest(slug, Some(version)), 1)
         == Visit(store, compile, ShowRequest(slug, None), 0)
         == ShowVersion(store, compile, slug, 1)
  {
  }

  /**
   * No redirect loop: after at most one redirect every Show request displays
   * its canonical version, or not found.
   */
  lemma ShowSettles<E>(store: PostStore, compile: Compiler<E>, slug: string, version: Option<int>)
    ensures Visit(store, compile, ShowRequest(slug, version), 1)
         == ShowVersion(store, compile, slug, CanonicalVersion(version))
  {
  }

  /**
   * /:slug/latest, followed through its redirects (two when the latest
   * version is 1), displays exactly the post stored under the latest version.
   */
  lemma LatestSettles<E>(store: PostStore, compile: Compiler<E>, slug: string)
    requires store.latestVersion(slug) >= 1
    ensures var r := Latest<E>(store, slug);
            var next := BindShow(GenerateRoute(map["slug" := Text(slug)], r.route));
            next.Some? && Visit(store, compile, next.value, 1) == ShowVersion(store, compile, slug, store.latestVersion(slug))
  {
  }

  /**
   * Why Show's redirect names the version as null: a redirect that merely
   * left the version out would keep the current request's version, so
   * /:slug/1 would redirect to /:slug/1 again.
   */
  lemma RedirectWithoutNullLoops(slug: string, version: int)
    ensures BindShow(GenerateRoute(RequestRoute(ShowRequest(slug, Some(version))), map["slug" := Text(slug)]))
         == Some(ShowRequest(slug, Some(version)))
  {
  }

  /**
   * The link Save reports is already canonical: Show does not redirect it,
   * and when the saved version is positive it displays exactly that version.
   */
  lemma SaveLinkIsCanonical<E>(store: PostStore, compile: Compiler<E>, repoSave: (string, Post) -> Post, slug: string, post: Post)
    ensures var r := Save(repoSave, slug, post);
            BindShow(r.url).Some? && BindShow(r.url).value.slug == r.slug
            && !Show(store, compile, r.slug, BindShow(r.url).value.version).RedirectPermanent?
    ensures var r := Save(repoSave, slug, post);
            r.version >= 1 ==>
              Show(store, compile, r.slug, BindShow(r.url).value.version) == ShowVersion(store, compile, r.slug, r.version)
  {
  }

  /**
   * Show reads nothing but the post under (slug, canonical version) and that
   * post's compile errors; a version of at most 1 reads neither.
   */
  lemma ShowReadsOnlyItsKey<E>(store1: PostStore, compile1: Compiler<E>, store2: PostStore, compile2: Compiler<E>,
                               slug: string, version: Option<int>)
    requires LiftedAtMost(version, 1) ||
             var key := (slug, CanonicalVersion(version));
             (key in store1.versions <==> key in store2.versions) &&
             (key in store1.versions ==>
                var post := store1.versions[key];
                post == store2.versions[key] && compile1(post.content, post.classes) == compile2(post.content, post.classes))
    ensures Show(store1, compile1, slug, version) == Show(store2, compile2, slug, version)
  {
  }
}
