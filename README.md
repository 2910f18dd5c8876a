# Compilify home controller — addressing, canonical URLs and validation

Compilify stores C# snippets under a human-chosen slug and an increasing
version number. Its home controller answers:

- `GET /:slug` and `GET /:slug/:version` (Show): a version of at most 1 is
  sent by a permanent redirect to the versionless URL `/:slug`. A missing
  version shows version 1. Any other version is looked up; the post is shown
  with the compiler's errors for its command and classes, or the answer is
  not found.
- `GET /:slug/latest` (Latest): the repository's latest version number. Below
  1 it answers not found. Otherwise it answers a temporary redirect to that
  version.
- `POST` Save: the repository stores the post; the answer reports the
  returned slug and version and a link whose route carries the version only
  when it is above 1.
- `POST` Validate: the compiler's errors for a command and its classes.

The model is pure. The repository's reads are a value (`PostStore`: posts
keyed by `(slug, version)` plus a function giving the latest version per
slug). The repository's save is a function parameter. The compiler is a
function parameter from (command, classes) to a sequence of errors. Route
values are modelled as a dictionary from names to values, together with
the binding of a route onto Show's `(string slug, int? version)`
parameters. `GenerateRoute` models how MVC builds a redirect's URL: a key
the redirect leaves out is taken from the current request's route values,
and a key given as null is cleared. This is why Show's redirect names the
version as null. `Visit` describes a client that sends each redirect back
to Show; it states that the redirects converge.

C#'s comparison `version <= 1` on an `int?` is lifted: it is false when
`version` is null. So `/:slug` does not redirect to itself; it falls
through to `version ?? 1`. `LiftedAtMost` models the comparison, and
`Show`'s contract states both sides of it.

Files: `Wrappers.dfy` (Option), `Routing.dfy` (route values, binding onto
Show), `HomeController.dfy` (the actions and the lemmas relating them).

## Model

| member | source | states |
|---|---|---|
| `HomeController.ShowVersion` | Web/Controllers/HomeController.cs:62-73 | The repository read at line 62 (`GetVersion`: the stored post or null). Not found exactly when no post is stored under (slug, version). Otherwise it shows that stored post, with errors equal to the compiler's output on the post's content and classes. |
| `HomeController.Show` | Web/Controllers/HomeController.cs:54-81 | Permanent redirect exactly when a version is given and is at most 1, including 0 and negatives; never when the version is absent (`LiftedAtMost`, C#'s lifted `<=` on `int?`, is false for null). The redirect names the version explicitly as null. Its URL, generated against the request's own route values, binds back to the same slug with no version. An absent version looks up version 1. A version above 1 looks up exactly that version. Show never answers a temporary redirect. |
| `HomeController.Latest` | Web/Controllers/HomeController.cs:84-94 | Not found exactly when the repository's latest version is below 1. Otherwise a temporary redirect whose URL, generated against the request's route values (the slug only), binds to Show with the same slug and that latest version. |
| `HomeController.SaveRoute` | Web/Controllers/HomeController.cs:101-106 | The route always carries the slug. It carries a version key exactly when the version is above 1, and then the key's value is that version. It carries no other key. |
| `HomeController.Save` | Web/Controllers/HomeController.cs:97-110 | Reports the slug and version the repository returned, unchanged. The link route always holds that slug, and holds that version exactly when it is above 1. |
| `HomeController.Validate` | Web/Controllers/HomeController.cs:113-119 | The returned array holds exactly the compiler's errors for the command and classes, in order. |
| `HomeController.CanonicalRedirect` | Web/Controllers/HomeController.cs:48-62 | `/:slug/v` with v at most 1 redirects permanently. Following that redirect gives the same answer as `/:slug`, which is the version-1 lookup. |
| `HomeController.RedirectWithoutNullLoops` | Web/Controllers/HomeController.cs:58-59 | A redirect that left the version out instead of naming it null would keep the current request's version, so `/:slug/v` would redirect to itself. This is why the explicit null is needed. |
| `HomeController.ShowSettles` | Web/Controllers/HomeController.cs:56-73 | After at most one redirect, every Show request displays its canonical version (the given version above 1, else 1) or not found. There is no redirect loop. |
| `HomeController.LatestSettles` | Web/Controllers/HomeController.cs:86-93 | When the latest version is at least 1, following Latest's redirects (two when it is 1) displays exactly the post stored under the latest version. |
| `HomeController.SaveLinkIsCanonical` | Web/Controllers/HomeController.cs:103-105 | The link Save reports binds to Show with the saved slug, and Show never answers it with the canonicalising redirect. When the saved version is positive, Show displays exactly that version. |
| `HomeController.ShowReadsOnlyItsKey` | Web/Controllers/HomeController.cs:56-72 | Two stores and compilers that agree on the post under (slug, canonical version) and its errors give the same Show answer. A version at most 1 reads neither store nor compiler. |

## Left out

- The compiler (`CSharpCompiler.GetCompilationErrors`, built on Roslyn) is a function parameter. Its diagnostics, their order and their format are not modelled. Determinism holds only because a function parameter is deterministic.
- The repository (`IPostRepository`) is not part of this model. The model does not capture how Save assigns version numbers, its atomicity under concurrent saves, or whether the latest version agrees with the stored versions. Save's effect on the store is not modelled: `Save` takes the repository's save as a function and reports what it returns.
- HTTP and MVC plumbing is not modelled: views, the JSON envelope (`status = "ok"`), status codes, and the AJAX-or-view choice in Show. Show's two answers for a found post carry the same view model, which is what is modelled. The link text made by `Url.Action` is also left out; Save's `url` is the route-value dictionary that the text is made from.
- Route binding accepts only an integer route value for `version`. Parsing a textual version is not modelled; the route values the controller builds (lines 59, 93, 101-105) only ever hold an integer or a null `version`.
- `GenerateRoute` reuses every omitted key from the current request's route values. MVC reuses an ambient value only while the route parameters before it are unchanged; every redirect here keeps the slug, so the two rules agree for these redirects. The URL text itself is not modelled.
- `Save`'s link is bound without ambient values. Save is a POST whose own route values carry no version, so none can be reused.
- `Index` and `About` are not modelled. `Index` compiles a fixed hello-world snippet, and `About` renders a view; neither makes a decision.
- Sandboxed execution and live collaboration are not modelled. Nothing in the controller implements them.
