/** The decisions the crawler takes on one HTTP reply (crawler.go): whether a
    redirect may be followed, following section 3.1 of the IAB ads.txt
    Specification v1.0.1, and whether a body may be read. */
module Crawler {
  import opened Results
  import opened StringOps
  import opened External
  import opened Requests

  /** What the crawler reads from one HTTP reply: the status code, the
      `Location`, `Content-Type` headers, the body, and the `Expires` header
      already converted to a time (`None` when it is absent or does not
      parse). */
  datatype Reply = Reply(status: int, location: string, contentType: string, body: string, expires: Option<int>)

  /** Why fetching an ads.txt file failed; each carries what Go formats into
      its error message. */
  datatype FetchError =
    | TransportFailure
    | RedirectUnresolvable(domain: string, url: string, redirect: string, reason: string)
    | RedirectOutOfScope(domain: string, previous: string, target: string)
    | RedirectToInvalidAdsTxt(domain: string, url: string, redirect: string)
    | ClientError(status: int, domain: string, url: string)
    | GeneralError(status: int, domain: string, url: string)
    | BadContentType(url: string, contentType: string)

  const TextPlain: string := "text/plain"

  /** Go's `strings.Index`: the first position where `sub` starts, or -1. */
  function Index(s: string, sub: string): int
    decreases |s|
  {
    if HasPrefix(s, sub) then 0
    else if s == [] then -1
    else
      var k := Index(s[1..], sub);
      if k < 0 then -1 else k + 1
  }

  /** `Index` finds the first occurrence, and -1 means there is none. */
  lemma {:induction false} IndexFirst(s: string, sub: string)
    ensures var r := Index(s, sub);
            && -1 <= r <= |s|
            && (r >= 0 ==> HasPrefix(s[r..], sub) && forall j :: 0 <= j < r ==> !HasPrefix(s[j..], sub))
            && (r == -1 ==> forall j :: 0 <= j <= |s| ==> !HasPrefix(s[j..], sub))
    decreases |s|
  {
    if !HasPrefix(s, sub) && s != [] {
      var tail := s[1..];
      var k := Index(tail, sub);
      IndexFirst(tail, sub);
      assert Index(s, sub) == if k < 0 then -1 else k + 1;
      if k >= 0 {
        assert s[k + 1..] == tail[k..];
        forall j | 0 <= j < k + 1
          ensures !HasPrefix(s[j..], sub)
        {
          if j > 0 {
            assert s[j..] == tail[j - 1..];
          }
        }
      } else {
        forall j | 0 <= j <= |s|
          ensures !HasPrefix(s[j..], sub)
        {
          if j > 0 {
            assert s[j..] == tail[j - 1..];
          }
        }
      }
    }
  }

  /** Hence a string's first occurrence of `sub` is at 0 exactly when the
      string starts with `sub`. */
  lemma IndexZeroIsPrefix(s: string, sub: string)
    ensures Index(s, sub) == 0 <==> HasPrefix(s, sub)
  {
    IndexFirst(s, sub);
  }

  /** The root domain of the URL being fetched; Go ignores the error and
      keeps whatever string came with it. */
  function PreviousDomain(req: Request, env: Collaborators): string {
    match env.rootDomain(req.url)
    case Success(d) => d
    case Failure(_) => env.rootDomainOnError(req.url)
  }

  /** `handleRedirect`: the redirect target `location` is followed only if
      its root domain is known, it stays in the original root domain or is
      the single hop out of it, and it names an ads.txt file. */
  function HandleRedirect(req: Request, location: string, env: Collaborators): (r: Result<string, FetchError>)
    // a followed redirect goes to the Location as given, which names an ads.txt file
    ensures r.Success? ==> r.value == location && HasSuffix(location, AdsTxtPath)
  {
    match env.rootDomain(location)
    case Failure(e) => Failure(RedirectUnresolvable(req.domain, req.url, location, e))
    case Success(d) =>
      var prevDomain := PreviousDomain(req, env);
      if d != req.domain && prevDomain != req.domain && prevDomain != d then
        Failure(RedirectOutOfScope(req.domain, prevDomain, d))
      else if !HasSuffix(location, AdsTxtPath) then
        Failure(RedirectToInvalidAdsTxt(req.domain, req.url, location))
      else
        Success(location)
  }

  /** A target whose root domain cannot be found is refused before anything
      else is looked at. */
  lemma UnresolvableRedirect(req: Request, location: string, env: Collaborators)
    requires env.rootDomain(location).Failure?
    ensures HandleRedirect(req, location, env) ==
              Failure(RedirectUnresolvable(req.domain, req.url, location, env.rootDomain(location).error))
  {
  }

  /** A target in the original root domain is always in scope, wherever the
      previous hop was: it is followed exactly when it names an ads.txt
      file. */
  lemma SameDomainAlwaysAccepted(req: Request, location: string, env: Collaborators)
    requires env.rootDomain(location) == Success(req.domain)
    ensures HandleRedirect(req, location, env).Success? <==> HasSuffix(location, AdsTxtPath)
  {
  }

  /** From the original root domain, one hop to any other root domain is
      allowed. */
  lemma OneHopOutAllowed(req: Request, location: string, env: Collaborators)
    requires env.rootDomain(req.url) == Success(req.domain)
    requires env.rootDomain(location).Success?
    ensures HandleRedirect(req, location, env).Success? <==> HasSuffix(location, AdsTxtPath)
  {
  }

  /** Once outside the original root domain, a redirect to a third root
      domain is refused, whatever the target path; staying in the current
      one is allowed. */
  lemma SecondHopOut(req: Request, location: string, env: Collaborators, previous: string, target: string)
    requires env.rootDomain(req.url) == Success(previous) && previous != req.domain
    requires env.rootDomain(location) == Success(target) && target != req.domain
    ensures target != previous ==>
              HandleRedirect(req, location, env) == Failure(RedirectOutOfScope(req.domain, previous, target))
    ensures target == previous ==>
              (HandleRedirect(req, location, env).Success? <==> HasSuffix(location, AdsTxtPath))
  {
  }

  /** When the root domain of the URL being fetched cannot be found, the
      string returned with the error stands in for it: a redirect out of the
      original root domain is then judged against that string. */
  lemma UnknownPreviousDomain(req: Request, location: string, env: Collaborators, target: string)
    requires env.rootDomain(req.url).Failure?
    requires env.rootDomain(location) == Success(target) && target != req.domain
    ensures var stand := env.rootDomainOnError(req.url);
            && (stand != req.domain && stand != target ==>
                  HandleRedirect(req, location, env) == Failure(RedirectOutOfScope(req.domain, stand, target)))
            && (stand == req.domain || stand == target ==>
                  (HandleRedirect(req, location, env).Success? <==> HasSuffix(location, AdsTxtPath)))
  {
  }

  /** `readBody`: the body is read only when the `Content-Type` header
      starts with `text/plain`. */
  function ReadBody(req: Request, reply: Reply): (r: Result<string, FetchError>)
    ensures r.Success? ==> r.value == reply.body
  {
    if Index(reply.contentType, TextPlain) != 0 then
      Failure(BadContentType(req.url, reply.contentType))
    else
      Success(reply.body)
  }

  /** The content-type gate accepts exactly the headers starting with
      `text/plain` (any parameters may follow), and names the header it
      refused. */
  lemma ContentTypeGate(req: Request, reply: Reply)
    ensures ReadBody(req, reply).Success? <==> HasPrefix(reply.contentType, TextPlain)
    ensures ReadBody(req, reply).Failure? ==>
              ReadBody(req, reply).error == BadContentType(req.url, reply.contentType)
  {
    IndexZeroIsPrefix(reply.contentType, TextPlain);
  }
}
