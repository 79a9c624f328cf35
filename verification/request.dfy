/** Building the request for a host's ads.txt file (request.go): the URL is
    completed with a default scheme and the `/ads.txt` path, and the request
    remembers the root domain of what the caller gave. */
module Requests {
  import opened Results
  import opened StringOps
  import opened External

  /** A request for an ads.txt file: the root domain of the host it was made
      for, and the URL currently being fetched. */
  datatype Request = Request(domain: string, url: string)

  const DefaultScheme: string := "http"
  const AdsTxtPath: string := "/ads.txt"

  /** Ensures a URL path names the ads.txt file: a path already ending in
      `/ads.txt` is kept, any other one loses one trailing `/` and gets
      `/ads.txt` appended. */
  function NormalizePath(path: string): (r: string)
    ensures HasSuffix(r, AdsTxtPath)
  {
    if HasSuffix(path, AdsTxtPath) then path
    else TrimSuffix(path, "/") + AdsTxtPath
  }

  /** Fills in the default scheme and the ads.txt path, leaving the rest of
      the URL alone. */
  function NormalizeURL(u: URL): URL {
    var withScheme := if u.scheme == "" then u.(scheme := DefaultScheme) else u;
    withScheme.(path := NormalizePath(withScheme.path))
  }

  /** Builds the request for `raw`: a URL that does not parse, or whose root
      domain cannot be found, gives the corresponding error. */
  function NewRequest(raw: string, env: Collaborators): (r: Result<Request, string>)
    ensures r.Success? <==> env.parseURL(raw).Success? && env.rootDomain(raw).Success?
  {
    match env.parseURL(raw)
    case Failure(e) => Failure(e)
    case Success(u) =>
      var adsTxtURL := NormalizeURL(u);
      match env.rootDomain(raw)
      case Failure(e) => Failure(e)
      case Success(d) => Success(Request(d, env.formatURL(adsTxtURL)))
  }

  /** A path that already names the ads.txt file is left as it is; a path
      that neither names it nor ends in a slash gets `/ads.txt` appended. */
  lemma NormalizePathCases(path: string)
    ensures HasSuffix(path, AdsTxtPath) ==> NormalizePath(path) == path
    ensures !HasSuffix(path, AdsTxtPath) && !HasSuffix(path, "/") ==>
              NormalizePath(path) == path + AdsTxtPath
  {
  }

  /** A path ending in a slash is the directory the file is put in, as with
      `example.com/path/` becoming `example.com/path/ads.txt`. */
  lemma DirectoryPath(dir: string)
    ensures NormalizePath(dir + "/") == dir + AdsTxtPath
  {
    var path := dir + "/";
    assert path[|path| - 1] == '/';
    assert TrimSuffix(path, "/") == dir;
  }

  /** Normalising is idempotent. */
  lemma NormalizeURLIdempotent(u: URL)
    ensures NormalizeURL(NormalizeURL(u)) == NormalizeURL(u)
  {
  }

  /** Only the scheme and the path change: a missing scheme becomes `http`,
      an existing one is kept, and the path ends in `/ads.txt`. */
  lemma NormalizeURLFields(u: URL)
    ensures NormalizeURL(u).scheme == (if u.scheme == "" then DefaultScheme else u.scheme)
    ensures NormalizeURL(u).rest == u.rest
    ensures NormalizeURL(u).path == NormalizePath(u.path)
    ensures HasSuffix(NormalizeURL(u).path, AdsTxtPath)
  {
  }

  /** A built request holds the root domain of the raw input, not of the
      rewritten URL, and the normalised URL; a parse error wins over a root
      domain error. */
  lemma NewRequestFields(raw: string, env: Collaborators)
    ensures var r := NewRequest(raw, env);
            && (r.Success? ==> r.value.domain == env.rootDomain(raw).value &&
                               r.value.url == env.formatURL(NormalizeURL(env.parseURL(raw).value)))
            && (env.parseURL(raw).Failure? ==> r == Failure(env.parseURL(raw).error))
            && (env.parseURL(raw).Success? && env.rootDomain(raw).Failure? ==>
                  r == Failure(env.rootDomain(raw).error))
  {
  }
}
