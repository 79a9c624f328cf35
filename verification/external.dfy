/** The collaborators the crawler calls but whose code is not part of this
    model. Each is a parameter whose answers are left open; it is only taken
    to be a function of its argument. */
module External {
  import opened Results

  /** A parsed URL as Go's `net/url` splits it, reduced to what the crawler
      touches: the scheme, the path, and everything else (user, host, query,
      fragment) as one uninterpreted part. */
  datatype URL = URL(scheme: string, rest: string, path: string)

  datatype Collaborators = Collaborators(
    /** `rootDomain`: public suffix plus one label, or an error message. */
    rootDomain: string -> Result<string, string>,
    /** The string `rootDomain` returns alongside its error, which callers
        that ignore the error go on using. */
    rootDomainOnError: string -> string,
    /** `validateDomainName`: hostname shape check. */
    validateDomainName: string -> bool,
    /** `vaidateAdSystemCName`: the canonical-name registry check; `Some(message)`
        is the error it returns. */
    adSystemCNameError: string -> Option<string>,
    /** `url.Parse`. */
    parseURL: string -> Result<URL, string>,
    /** `URL.String()`, as used by `fmt.Sprintf("%v", u)`. */
    formatURL: URL -> string
  )
}
