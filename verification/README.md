# ads.txt crawler — a Dafny model

This project models the core of the Go ads.txt crawler `go-adstxt-crawler`.
The crawler fetches a publisher's `ads.txt` file (IAB ads.txt Specification
v1.0.1) and turns it into data records, variables and line warnings.

The model covers five parts of the crawler:

- **Request building** (`request.go`, module `Requests`): completes a URL with
  the `http` scheme and the `/ads.txt` path, and keeps the root domain of the
  raw input.
- **Fetching** (`crawler.go`, module `Crawler`; `adstxt/adstxt.go`, module
  `AdsTxt`): `Get` sends the request and dispatches on the status code. It
  follows a redirect only when the target names an ads.txt file and its root
  domain is the original root domain, the root domain of the URL just fetched,
  or any domain when the URL just fetched is in the original root domain. A
  body is read only when its `Content-Type` starts with `text/plain`. The file
  expires at the reply's `Expires` time, or seven days after the fetch.
- **Line splitting** (`adstxt/adstxt.go`, module `AdsTxt`): the scanner's split
  function cuts a body at `\n`, `\r\n` or a lone `\r`. `ScanLines` is the
  scanner loop.
- **Records aggregation** (`response.go`, module `RecordsAggregator`): each line
  is stripped of its comment. It is then skipped, parsed as a data record,
  parsed as a variable, or flagged with a HIGH warning. The `Records` class
  accumulates the results in place, in line order.
- **Line parsing** (`record.go`, module `RecordParser`): parses one data record
  (`domain, account id, DIRECT|RESELLER[, cert id]`) or one variable
  (`subdomain=` / `contact=`). Each refusal gives a warning with the crawler's
  exact message and severity.

The rest of the project supports these parts:

- `StringOps` holds the ASCII subset of Go's `strings` package that the crawler
  uses: `Split`, `Join`, `TrimSpace`, `Count`, `Index`, `IndexAny`, `ToUpper`
  and `ToLower`.
- `Diagnostics` holds `warning.go`.
- `Fixtures` restates the parsing tests of `record_test.go` and
  `adstxt/adstxt_test.go` for every input of the tested shape. The answers of
  the advertising-system checks are stated as hypotheses.
- `Results` holds `Option`/`Result`, which stand for Go's nil pointers and
  `(value, error)` pairs.
- `External` holds the helpers the crawler calls but whose code is not part of
  this model. They are `rootDomain`, `validateDomainName`,
  `vaidateAdSystemCName`, `url.Parse` and `URL.String`. Each is a field of a
  `Collaborators` value, and the model fixes none of their answers. The string
  `rootDomain` returns alongside an error is a field of its own,
  `rootDomainOnError`, because `handleRedirect` uses it.

The network is a sequence of replies: the i-th element answers the i-th request
`Get` sends. `None`, or running out of replies, stands for a transport failure.
The current time is a parameter.

Four behaviours of the code are worth spelling out:

- When the canonical-name check on the advertiser domain fails,
  `parseDataRecord` returns a LOW warning and **no** record
  (`record.go:66-69`). `RecordParser.AdvertiserDomainChecks` states this.
- Section 3.1 of the IAB ads.txt Specification, which `crawler.go:94-96`
  quotes, reads: "Only a single HTTP redirect to a destination outside the
  original root domain is allowed to facilitate one-hop delegation of
  authority to a third party's web server domain." The code compares the
  target only with the original root domain and with the root domain of the
  URL just fetched (`crawler.go:98-101`). A redirect that stays where the
  previous one landed is therefore accepted (`Crawler.SecondHopOut`). A chain
  that leaves the original root domain, comes back, and leaves again for a
  different domain is followed to the end (`AdsTxt.SecondHopAfterReturn`).
  When the root domain of the URL just fetched cannot be computed, the string
  returned with the error takes its place (`Crawler.UnknownPreviousDomain`).
- One line can yield both a record and a LOW warning: a certification
  authority id that is not alphanumeric is kept in the record and flagged
  (`record.go:99-105`). `RecordsAggregator.ParseLineShape` states this.
- A variable line is classified on its comment-stripped text but parsed from
  the original text (`response.go:65`). A trailing comment therefore stays in
  the variable's value, up to the next `=`.
  `RecordsAggregator.VariableKeepsComment` and `RecordParser.VariableOfLine`
  state this.

## Model

| member | source | states |
|---|---|---|
| `Diagnostics.Severity.Level` | warning.go:14-20 | LOW and HIGH are the `iota` values 2 and 3; 3 means HIGH |
| `StringOps.TrimSpaceShape` | record.go:56 | trimming keeps a contiguous piece of the field with no white space at either end, and everything cut off before and after it is white space |
| `StringOps.TrimSpaceAround` | record.go:56 | a piece with non-space ends, padded on both sides by white space only, trims to exactly that piece |
| `StringOps.TrimSpaceIdempotent` | record.go:140 | trimming twice is trimming once |
| `StringOps.SplitCount` | record.go:48-51 | splitting on `,` gives one more field than there are commas |
| `StringOps.SplitJoin` | record.go:48 | joining the split fields with the separator gives the line back |
| `StringOps.SplitOfJoin` | record.go:48 | fields free of the separator, joined with it, split back into the same fields |
| `StringOps.SplitPiecesFree` | record.go:48 | no field holds the separator |
| `StringOps.IndexOfFirst` | record.go:136-138 | `strings.Index` finds the first occurrence |
| `StringOps.IndexAnyFirst` | adstxt/adstxt.go:105 | `bytes.IndexAny` gives -1 exactly when no `\r`/`\n` occurs, otherwise the first one |
| `RecordParser.ParseDataRecord` | record.go:46-109 | never two nils; a HIGH warning never comes with a record; the warning is not yet stamped |
| `RecordParser.FieldCountChecked` | record.go:48-53 | a line without 2 or 3 commas gives only the field-count HIGH warning |
| `RecordParser.DataRecordOfLine` | record.go:55-108 | a returned record is made of the trimmed, non-empty, accepted fields, with the account type upper-cased; it comes with a warning exactly when its cert id is not alphanumeric |
| `RecordParser.AdvertiserDomainChecks` | record.go:56-69 | missing domain, then invalid domain (HIGH), then canonical-name error (LOW), each with no record |
| `RecordParser.RequiredFieldChecks` | record.go:71-85 | missing account id, missing account type, or an account type other than DIRECT/RESELLER in any case each give their HIGH warning and no record |
| `RecordParser.WellFormedLineAccepted` | record.go:87-108 | a line whose fields pass every check yields exactly the record they describe |
| `RecordParser.ParseVariable` | record.go:112-132 | exactly one of a variable and a warning |
| `RecordParser.VariableOfLine` | record.go:114-131 | `subdomain`/`contact` in any case gives that lower-case type with the verbatim text up to the next `=`; any other key is named, as written, in a HIGH warning |
| `RecordParser.RemoveComment` | record.go:135-141 | the result has no `#` and no white space at either end; a line without `#` is just trimmed |
| `RecordParser.RemoveCommentChars` | record.go:135-141 | nothing is added: every kept character occurs in the line |
| `RecordParser.RemoveCommentIdempotent` | record.go:135-141 | stripping comments twice is stripping them once |
| `RecordParser.RemoveCommentPrefix` | record.go:136-140 | the result is the trimmed text before the first `#` |
| `RecordsAggregator.ClassifyCases` | response.go:48-64 | skip exactly the empty stripped lines; data lines have at least two commas and at most five `=`; variable lines otherwise have exactly one `=` |
| `RecordsAggregator.ParseLineShape` | response.go:45-77 | blank or comment-only lines add nothing; any other line adds one entry, or two for a record with a LOW warning; warnings carry the line's index and text; a HIGH warning comes alone |
| `RecordsAggregator.VariableKeepsComment` | response.go:64-72 | the variable is parsed from the original text, comment included |
| `RecordsAggregator.UnparseableLine` | response.go:73-76 | an unclassifiable line adds exactly one HIGH "could not parse this line" warning |
| `RecordsAggregator.ParseAllProperties` | response.go:37-39 | over a file, at most one warning and one record or variable per line; warnings are stamped with strictly increasing 1-based indices and their line's text |
| `RecordsAggregator.ParseAllPrefix` | response.go:37-39 | the warnings of the first lines of a file lead, unchanged and in order, the warnings of the whole file |
| `RecordsAggregator.SkippedLineAddsNothing` | response.go:48-51 | appending a blank or comment-only line does not change the result |
| `RecordsAggregator.Records.constructor` | response.go:29-34 | empty collections; the body is the lines |
| `RecordsAggregator.Records.ParseRecord` | response.go:45-77 | appends exactly what the line yields; the body is unchanged |
| `RecordsAggregator.ParseRecords` | response.go:28-42 | a fresh `Records` whose body is the lines and whose contents are the in-order parse of every line, indexed from 1 |
| `Requests.NormalizePath` | request.go:29-31 | the path ends in `/ads.txt` |
| `Requests.NormalizePathCases` | request.go:29-31 | a path ending in `/ads.txt` is kept; a path with no trailing `/` gets `/ads.txt` appended |
| `Requests.DirectoryPath` | request.go:29-31 | `dir/` becomes `dir/ads.txt` |
| `Requests.NormalizeURLIdempotent` | request.go:24-31 | completing the URL twice is completing it once |
| `Requests.NormalizeURLFields` | request.go:24-31 | a missing scheme becomes `http`; an existing scheme and everything but the path are kept |
| `Requests.NewRequest` | request.go:16-42 | succeeds exactly when the URL parses and its root domain is found |
| `Requests.NewRequestFields` | request.go:16-42 | the request holds the root domain of the raw input and the completed URL; a parse error is reported before a root-domain error |
| `Crawler.IndexFirst` | crawler.go:117 | `strings.Index` gives the first occurrence of the substring, and -1 only when there is none |
| `Crawler.IndexZeroIsPrefix` | crawler.go:117 | the first occurrence is at 0 exactly when the header starts with the substring |
| `Crawler.HandleRedirect` | crawler.go:77-110 | a followed redirect goes to the `Location` as given, which ends in `/ads.txt` |
| `Crawler.UnresolvableRedirect` | crawler.go:83-86 | a target with no root domain is refused first |
| `Crawler.SameDomainAlwaysAccepted` | crawler.go:93-109 | a target in the original root domain is followed exactly when it names an ads.txt file |
| `Crawler.OneHopOutAllowed` | crawler.go:93-102 | from the original root domain, a hop to any other domain is in scope |
| `Crawler.SecondHopOut` | crawler.go:93-102 | once outside, a third root domain is refused naming the original, previous and target domains; staying put is allowed |
| `Crawler.UnknownPreviousDomain` | crawler.go:98-101 | when the current URL has no root domain, the string returned with the error stands for it: a third domain is refused naming that string, otherwise only the ads.txt suffix decides |
| `Crawler.ReadBody` | crawler.go:113-128 | a read body is the reply's body |
| `Crawler.ContentTypeGate` | crawler.go:116-119 | the body is read exactly when `Content-Type` starts with `text/plain`; otherwise the error names the URL and the header |
| `AdsTxt.SplitToken` | adstxt/adstxt.go:101-122 | never consumes more than the data; at the end of non-empty input, always a line and progress |
| `AdsTxt.SplitTokenShape` | adstxt/adstxt.go:101-122 | consumes one line free of `\r`/`\n` and one terminator: `\n`, `\r\n`, a `\r` not followed by `\n`, or the end of the input |
| `AdsTxt.LinesHaveNoLineEnds` | adstxt/adstxt.go:101-131 | no scanned line contains `\r` or `\n` |
| `AdsTxt.LinesEmpty` | adstxt/adstxt.go:102-104 | an empty body has no lines, and only an empty body |
| `AdsTxt.LinesCons` | adstxt/adstxt.go:105-115 | a line and its terminator come off the front as one line |
| `AdsTxt.LinesAfterTerminated` | adstxt/adstxt.go:101-131 | terminated lines followed by more text are scanned back first |
| `AdsTxt.LastLine` | adstxt/adstxt.go:117-119 | a final unterminated line is kept |
| `AdsTxt.TerminatedRoundTrip` | adstxt/adstxt.go:101-131 | lines each followed by `\n`, `\r\n` or `\r` scan back to the same lines, with no extra empty line |
| `AdsTxt.JoinedRoundTrip` | adstxt/adstxt.go:101-131 | lines joined by one terminator, with a non-empty last line, scan back to the same lines |
| `AdsTxt.ScanLines` | adstxt/adstxt.go:124-131 | the scanner loop collects exactly the lines of the body |
| `AdsTxt.ParseBody` | adstxt/adstxt.go:99-138 | a fresh `Records` whose body is the scanned lines and whose contents are their parse |
| `AdsTxt.Dispatch` | adstxt/adstxt.go:27-70 | only 200 is read; 3xx redirects; 4xx is a client error; other codes, other 2xx included, are errors |
| `AdsTxt.FetchKeepsDomain` | adstxt/adstxt.go:30-35 | redirects change only the URL, which stays the original or becomes an ads.txt target |
| `AdsTxt.FetchSuccessFromOk` | adstxt/adstxt.go:40-66 | a page comes only from a 200 `text/plain` reply, and holds that reply's lines and expiry |
| `AdsTxt.FirstReplyDecides` | adstxt/adstxt.go:27-70 | a non-redirect first reply settles the outcome: its page, a bad-content-type, client or general error |
| `AdsTxt.RedirectFollowed` | adstxt/adstxt.go:30-35 | a followed redirect repeats the request on the target with the next reply |
| `AdsTxt.SecondHopAfterReturn` | crawler.go:93-101 | a chain out of the original root domain, back into it, and out again to a third domain is followed through all three redirects |
| `AdsTxt.Get` | adstxt/adstxt.go:13-72 | the loop's final request, error or response agree with `Fetch`; a response holds fresh records parsed from the page's lines, the final request and the expiry |
| `Fixtures.ThreeFieldRecord` | record_test.go:9-31 | `domain,id,<spaces/tabs>type` with a known advertising system and DIRECT/RESELLER in any case gives that record, type upper-cased, no cert id, and no warning |
| `Fixtures.FourFieldRecord` | record_test.go:34-60 | `domain, id, type, cert` with padding after the commas gives the record with all four trimmed fields, and a warning exactly when the cert id is not alphanumeric |
| `Fixtures.VariableLineParsed` | record_test.go:234-279 | a `key=value` line gives the variable when the key is `subdomain` or `contact` in any case, and otherwise only the HIGH warning `[key] is not a valid Variable type` |
| `Fixtures.ValidFile` | adstxt/adstxt_test.go:87-106 | the valid four-line file gives its two records, its one variable and no warning |
| `Fixtures.MissingTypeFirst` | adstxt/adstxt_test.go:109-123 | a file whose first line has an empty account type has, whatever follows, the missing-type HIGH warning for line 1 as its first warning |
| `Fixtures.UnknownVariableFile` | adstxt/adstxt_test.go:124-138 | a file with an unknown variable type gives its record, no variable, and the single HIGH warning naming the key on line 4 |

## Left out

- Network I/O (`sendRequest`, `newCrawler`, HTTP client settings, headers sent): replies are a parameter.
- `GetMultiple` and the `Handler` callback: goroutines, the wait group and the sleep between requests are concurrency and timing.
- `parseExpires`: HTTP date parsing is in the standard library; `Reply.expires` carries the parsed time or `None`, and the current time is a parameter.
- `Records.String`: JSON formatting for display.
- Error values of `Get` and its helpers are datatype variants carrying what Go formats into the message, not the formatted strings.
- `Get` updates the caller's `Request` in place; the model returns the final request instead, so aliasing with the caller is not captured.
- `AdsTxt.ScanLines`: runs the split function on the whole body with `atEOF` true. It does not model `bufio.Scanner`'s 64 KiB token limit or its error. It also does not model partial reads, so a `\r\n` split across two buffers is not covered; the input is a `bytes.Reader` over the whole body.
- Strings are sequences of characters; Unicode white space and case mapping beyond ASCII are not modelled.
- `rootDomain`, `validateDomainName`, `vaidateAdSystemCName`, `url.Parse` and `URL.String`: their code is not part of this model and they are uninterpreted collaborators.
- Log output (`log.Printf` in `handleRedirect` and `parseExpires`).
- `Get` calls `c.parseBody`, which `crawler.go` does not define; it is modelled as `readBody`.
- Tests that need the network or the collaborators' code (`TestGet`, `TestNewRequest`, `crawler_test.go`, `adstxt/adsystems_test.go`) are not restated. The remaining parsing tests of `record_test.go`, on field counts, account types, comments and invalid names, are covered by the general `RecordParser` lemmas rather than by fixtures.
- `Fixtures`: each test is stated for every input of its shape rather than for its literal strings, so the literals (`greenadexchange.com`, `subdomains`) are not instantiated.
