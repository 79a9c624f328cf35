/** Fetching and parsing an ads.txt file (adstxt/adstxt.go): the body is cut
    into lines at `\n`, `\r\n` or a lone `\r`, and `Get` follows redirects
    until a reply settles the outcome. */
module AdsTxt {
  import opened Results
  import opened StringOps
  import opened External
  import opened RecordsAggregator
  import opened Requests
  import opened Crawler

  /** What the split function returns: how many characters it consumed and
      the line it found, if any (`None` asks for more input or stops). */
  datatype Token = Token(advance: nat, token: Option<string>)

  predicate IsLineEnd(c: char) {
    c == '\r' || c == '\n'
  }

  /** The split function given to the scanner: the text up to the first `\r`
      or `\n` is a line, a `\r` directly followed by `\n` is consumed as one
      terminator, and at the end of the input a final unterminated line is
      kept. */
  function SplitToken(data: string, atEOF: bool): (t: Token)
    ensures t.advance <= |data|
    ensures atEOF && data != [] ==> t.token.Some? && 0 < t.advance
  {
    if atEOF && |data| == 0 then Token(0, None)
    else
      var i := IndexAny(data, "\r\n");
      if i >= 0 then
        if data[i] == '\n' then
          // a line terminated by a single newline
          Token(i + 1, Some(data[0..i]))
        else
          var advance := if |data| > i + 1 && data[i + 1] == '\n' then i + 2 else i + 1;
          Token(advance, Some(data[0..i]))
      // a final, non-terminated line
      else if atEOF then Token(|data|, Some(data))
      // ask for more data
      else Token(0, None)
  }

  /** On non-empty input the split function consumes exactly one line, free
      of terminators, and one terminator: `\n`, `\r\n`, a `\r` not followed
      by `\n`, or nothing at the end of the input. */
  lemma SplitTokenShape(data: string)
    requires data != []
    ensures var t := SplitToken(data, true);
            var line := t.token.value;
            var term := data[|line|..t.advance];
            && |line| <= t.advance
            && line == data[..|line|]
            && (forall k :: 0 <= k < |line| ==> !IsLineEnd(line[k]))
            && (term == "" || term == "\n" || term == "\r" || term == "\r\n")
            && (term == "" ==> t.advance == |data|)
            && (term == "\r" ==> t.advance == |data| || data[t.advance] != '\n')
  {
    var t := SplitToken(data, true);
    var i := IndexAny(data, "\r\n");
    IndexAnyFirst(data, "\r\n");
    if i >= 0 {
      assert |t.token.value| == i;
      if data[i] == '\n' {
        assert data[i..t.advance] == "\n";
      } else if |data| > i + 1 && data[i + 1] == '\n' {
        assert data[i..t.advance] == "\r\n";
      } else {
        assert data[i..t.advance] == "\r";
      }
    }
  }

  /** The lines of a whole body, as the scanner hands them out. */
  function Lines(b: string): seq<string>
    decreases |b|
  {
    if b == [] then []
    else
      var t := SplitToken(b, true);
      [t.token.value] + Lines(b[t.advance..])
  }

  /** No line contains `\r` or `\n`. */
  lemma {:induction false} LinesHaveNoLineEnds(b: string)
    ensures forall i, k :: 0 <= i < |Lines(b)| && 0 <= k < |Lines(b)[i]| ==> !IsLineEnd(Lines(b)[i][k])
    decreases |b|
  {
    if b != [] {
      var t := SplitToken(b, true);
      SplitTokenShape(b);
      LinesHaveNoLineEnds(b[t.advance..]);
      assert Lines(b) == [t.token.value] + Lines(b[t.advance..]);
    }
  }

  /** A body is empty exactly when it has no lines. */
  lemma LinesEmpty(b: string)
    ensures Lines(b) == [] <==> b == []
  {
  }

  /** The three terminators the splitter accepts. */
  predicate IsTerminator(t: string) {
    t == "\n" || t == "\r\n" || t == "\r"
  }

  predicate NoLineEnds(s: string) {
    forall k :: 0 <= k < |s| ==> !IsLineEnd(s[k])
  }

  /** Every line followed by the terminator `t`. */
  function Terminated(lines: seq<string>, t: string): string {
    if lines == [] then "" else lines[0] + t + Terminated(lines[1..], t)
  }

  /** A line and its terminator come off the front of the text as one line. */
  lemma LinesCons(line: string, t: string, rest: string)
    requires NoLineEnds(line) && IsTerminator(t)
    requires t == "\r" ==> rest == [] || rest[0] != '\n'
    ensures Lines(line + t + rest) == [line] + Lines(rest)
  {
    var b := line + t + rest;
    var i := IndexAny(b, "\r\n");
    IndexAnyFirst(b, "\r\n");
    assert b[|line|] == t[0];
    assert forall j :: 0 <= j < |line| ==> b[j] == line[j];
    assert i == |line|;
    var tok := SplitToken(b, true);
    assert b[0..i] == line;
    if t == "\r\n" {
      assert b[i + 1] == '\n';
    }
    assert tok.advance == |line| + |t|;
    assert b[tok.advance..] == rest;
  }

  /** Text made of terminated lines never starts with `\n` unless its first
      line is empty and the terminator starts with it. */
  lemma TerminatedStart(lines: seq<string>, t: string)
    requires IsTerminator(t)
    requires forall i :: 0 <= i < |lines| ==> NoLineEnds(lines[i])
    ensures t == "\r" ==> Terminated(lines, t) == [] || Terminated(lines, t)[0] != '\n'
  {
    if lines != [] && t == "\r" {
      if lines[0] == [] {
        assert Terminated(lines, t)[0] == '\r';
      } else {
        assert Terminated(lines, t)[0] == lines[0][0];
      }
    }
  }

  /** Splitting terminated lines followed by more text gives back those
      lines first. */
  lemma {:induction false} LinesAfterTerminated(lines: seq<string>, t: string, rest: string)
    requires IsTerminator(t)
    requires forall i :: 0 <= i < |lines| ==> NoLineEnds(lines[i])
    requires t == "\r" ==> rest == [] || rest[0] != '\n'
    ensures Lines(Terminated(lines, t) + rest) == lines + Lines(rest)
  {
    if lines == [] {
      assert Terminated(lines, t) + rest == rest;
    } else {
      var tail := lines[1..];
      var after := Terminated(tail, t) + rest;
      assert Lines(after) == tail + Lines(rest) by {
        LinesAfterTerminated(tail, t, rest);
      }
      assert t == "\r" ==> after == [] || after[0] != '\n' by {
        TerminatedStart(tail, t);
        if t == "\r" && Terminated(tail, t) == [] {
          assert after == rest;
        }
      }
      assert Terminated(lines, t) + rest == lines[0] + t + after;
      assert Lines(lines[0] + t + after) == [lines[0]] + Lines(after) by {
        LinesCons(lines[0], t, after);
      }
      assert lines + Lines(rest) == [lines[0]] + (tail + Lines(rest));
    }
  }

  /** A last line free of line ends is a line of its own. */
  lemma LastLine(line: string)
    requires line != [] && NoLineEnds(line)
    ensures Lines(line) == [line]
  {
    IndexAnyFirst(line, "\r\n");
    assert IndexAny(line, "\r\n") == -1;
    assert line[|line|..] == [];
  }

  lemma {:induction false} JoinIsTerminated(lines: seq<string>, t: string)
    requires lines != []
    ensures Join(lines, t) == Terminated(lines[..|lines| - 1], t) + lines[|lines| - 1]
  {
    if |lines| > 1 {
      JoinIsTerminated(lines[1..], t);
      assert lines[1..][..|lines| - 2] == lines[..|lines| - 1][1..];
    }
  }

  /** Round trip: lines free of line ends, each followed by `\n`, `\r\n` or
      `\r`, split back into the same lines; a trailing terminator does not
      add an empty line. */
  lemma TerminatedRoundTrip(lines: seq<string>, t: string)
    requires IsTerminator(t)
    requires forall i :: 0 <= i < |lines| ==> NoLineEnds(lines[i])
    ensures Lines(Terminated(lines, t)) == lines
  {
    LinesAfterTerminated(lines, t, "");
    assert Terminated(lines, t) + "" == Terminated(lines, t);
  }

  /** Round trip: lines free of line ends whose last line is not empty,
      joined with `\n`, `\r\n` or `\r`, split back into the same lines. */
  lemma JoinedRoundTrip(lines: seq<string>, t: string)
    requires IsTerminator(t)
    requires forall i :: 0 <= i < |lines| ==> NoLineEnds(lines[i])
    requires lines != [] && lines[|lines| - 1] != []
    ensures Lines(Join(lines, t)) == lines
  {
    var n := |lines|;
    var init := lines[..n - 1];
    var last := lines[n - 1];
    assert Join(lines, t) == Terminated(init, t) + last by {
      JoinIsTerminated(lines, t);
    }
    assert Lines(Terminated(init, t) + last) == init + Lines(last) by {
      assert forall i :: 0 <= i < |init| ==> NoLineEnds(init[i]);
      assert !IsLineEnd(last[0]);
      LinesAfterTerminated(init, t, last);
    }
    assert Lines(last) == [last] by {
      LastLine(last);
    }
    assert init + [last] == lines;
  }

  /** The scanner loop of `ParseBody`: collects every line the split function
      hands out, on the whole body at once. */
  method ScanLines(b: string) returns (lines: seq<string>)
    ensures lines == Lines(b)
  {
    lines := [];
    var pos := 0;
    while pos < |b|
      invariant 0 <= pos <= |b|
      invariant lines + Lines(b[pos..]) == Lines(b)
      decreases |b| - pos
    {
      var t := SplitToken(b[pos..], true);
      var more := lines + [t.token.value];
      var next := pos + t.advance;
      assert more + Lines(b[next..]) == Lines(b) by {
        var rest := Lines(b[next..]);
        LinesStep(b[pos..]);
        assert b[pos..][t.advance..] == b[next..];
        assert Lines(b[pos..]) == [t.token.value] + rest;
        assert more + rest == lines + ([t.token.value] + rest);
      }
      lines, pos := more, next;
    }
    assert b[pos..] == [];
  }

  /** One step of the scanner: the first line, then the lines of what
      follows its terminator. */
  lemma LinesStep(data: string)
    requires data != []
    ensures var t := SplitToken(data, true);
            Lines(data) == [t.token.value] + Lines(data[t.advance..])
  {
  }

  /** `ParseBody`: the records of a body are those of its lines, and the
      lines are kept as the body. */
  method ParseBody(b: string, env: Collaborators) returns (r: Records)
    ensures fresh(r)
    ensures r.body == Lines(b)
    ensures r.Contents() == ParseAll(Lines(b), env)
  {
    var lines := ScanLines(b);
    r := ParseRecords(lines, env);
  }

  /** How `Get` treats a status code. */
  datatype StatusClass = Redirection | ClientFailure | Ok | Unexpected

  function Dispatch(status: int): (c: StatusClass)
    // only 200 is read, other 2xx codes are unexpected
    ensures c == Ok <==> status == 200
    ensures c == Redirection <==> 300 <= status < 400
    ensures c == ClientFailure <==> 400 <= status < 500
    ensures 200 < status < 300 ==> c == Unexpected
  {
    if 300 <= status < 400 then Redirection
    else if 400 <= status < 500 then ClientFailure
    else if status == 200 then Ok
    else Unexpected
  }

  /** Seven days, in seconds: the expiry used when the reply has no usable
      `Expires` header. */
  const DefaultExpiry: int := 7 * 24 * 60 * 60

  /** When a fetched file expires: the reply's own `Expires` time, or seven
      days from `now`. */
  function ExpiresAt(reply: Reply, now: int): int {
    match reply.expires
    case Some(t) => t
    case None => now + DefaultExpiry
  }

  /** A fetched file: its lines and when it expires. */
  datatype Page = Page(lines: seq<string>, expires: int)

  /** Where fetching ends: the request as last updated, and the page or the
      error. */
  datatype Fetched = Fetched(request: Request, result: Result<Page, FetchError>)

  /** The outcome of `Get` when the host answers the successive requests
      with `replies` (`None`: no reply could be obtained), with `now` the
      current time. Running out of replies counts as no reply. */
  function Fetch(req: Request, replies: seq<Option<Reply>>, env: Collaborators, now: int): Fetched
    decreases |replies|
  {
    if replies == [] || replies[0].None? then Fetched(req, Failure(TransportFailure))
    else
      var reply := replies[0].value;
      match Dispatch(reply.status)
      case Redirection =>
        (match HandleRedirect(req, reply.location, env)
         case Failure(e) => Fetched(req, Failure(e))
         case Success(redirect) => Fetch(req.(url := redirect), replies[1..], env, now))
      case ClientFailure => Fetched(req, Failure(ClientError(reply.status, req.domain, req.url)))
      case Ok =>
        (match ReadBody(req, reply)
         case Failure(e) => Fetched(req, Failure(e))
         case Success(body) => Fetched(req, Success(Page(Lines(body), ExpiresAt(reply, now)))))
      case Unexpected => Fetched(req, Failure(GeneralError(reply.status, req.domain, req.url)))
  }

  /** Redirects change only the URL: the request keeps its original root
      domain, and its URL is either the original one or a redirect target
      naming an ads.txt file. */
  lemma {:induction false} FetchKeepsDomain(req: Request, replies: seq<Option<Reply>>, env: Collaborators, now: int)
    ensures var f := Fetch(req, replies, env, now);
            && f.request.domain == req.domain
            && (f.request.url == req.url || HasSuffix(f.request.url, AdsTxtPath))
    decreases |replies|
  {
    if replies != [] && replies[0].Some? {
      var reply := replies[0].value;
      if Dispatch(reply.status) == Redirection && HandleRedirect(req, reply.location, env).Success? {
        var next := req.(url := reply.location);
        FetchKeepsDomain(next, replies[1..], env, now);
      }
    }
  }

  /** A file is returned only from a 200 reply with a `text/plain` content
      type, and then holds that reply's lines. */
  lemma {:induction false} FetchSuccessFromOk(req: Request, replies: seq<Option<Reply>>, env: Collaborators, now: int)
    requires Fetch(req, replies, env, now).result.Success?
    ensures exists i :: 0 <= i < |replies| && replies[i].Some? &&
              var reply := replies[i].value;
              && reply.status == 200
              && HasPrefix(reply.contentType, TextPlain)
              && Fetch(req, replies, env, now).result.value == Page(Lines(reply.body), ExpiresAt(reply, now))
    decreases |replies|
  {
    var reply := replies[0].value;
    if Dispatch(reply.status) == Redirection {
      var next := req.(url := reply.location);
      FetchSuccessFromOk(next, replies[1..], env, now);
      var i :| 0 <= i < |replies[1..]| && replies[1..][i].Some? &&
               var r := replies[1..][i].value;
               && r.status == 200
               && HasPrefix(r.contentType, TextPlain)
               && Fetch(next, replies[1..], env, now).result.value == Page(Lines(r.body), ExpiresAt(r, now));
      assert replies[i + 1] == replies[1..][i];
    } else {
      ContentTypeGate(req, reply);
      assert replies[0].Some?;
    }
  }

  /** The reply to the first request decides unless it is a redirect: a
      200 with a `text/plain` body gives that body's lines, a 4xx is a
      client error, any other non-redirect code is an error. */
  lemma FirstReplyDecides(req: Request, reply: Reply, more: seq<Option<Reply>>, env: Collaborators, now: int)
    requires !(300 <= reply.status < 400)
    ensures var f := Fetch(req, [Some(reply)] + more, env, now);
            && f.request == req
            && (reply.status == 200 && HasPrefix(reply.contentType, TextPlain) ==>
                  f.result == Success(Page(Lines(reply.body), ExpiresAt(reply, now))))
            && (reply.status == 200 && !HasPrefix(reply.contentType, TextPlain) ==>
                  f.result == Failure(BadContentType(req.url, reply.contentType)))
            && (400 <= reply.status < 500 ==> f.result == Failure(ClientError(reply.status, req.domain, req.url)))
            && (reply.status != 200 && !(400 <= reply.status < 500) ==>
                  f.result == Failure(GeneralError(reply.status, req.domain, req.url)))
  {
    ContentTypeGate(req, reply);
  }

  /** A followed redirect repeats the request with the target as URL and the
      next reply. */
  lemma RedirectFollowed(req: Request, reply: Reply, more: seq<Option<Reply>>, env: Collaborators, now: int)
    requires 300 <= reply.status < 400
    requires HandleRedirect(req, reply.location, env).Success?
    ensures Fetch(req, [Some(reply)] + more, env, now) == Fetch(req.(url := reply.location), more, env, now)
  {
    assert ([Some(reply)] + more)[1..] == more;
  }

  /** The scope rule looks at one hop only: after going out to `d1` and
      coming back to the original root domain, a redirect chain may go out
      again, to a different root domain `d2`. Two of its redirects then lead
      outside the original root domain. */
  lemma SecondHopAfterReturn(req: Request, r1: Reply, r2: Reply, r3: Reply, more: seq<Option<Reply>>,
                             env: Collaborators, now: int, d1: string, d2: string)
    requires env.rootDomain(req.url) == Success(req.domain)
    requires 300 <= r1.status < 400 && 300 <= r2.status < 400 && 300 <= r3.status < 400
    requires env.rootDomain(r1.location) == Success(d1) && d1 != req.domain
    requires env.rootDomain(r2.location) == Success(req.domain)
    requires env.rootDomain(r3.location) == Success(d2) && d2 != req.domain && d2 != d1
    requires HasSuffix(r1.location, AdsTxtPath) && HasSuffix(r2.location, AdsTxtPath) && HasSuffix(r3.location, AdsTxtPath)
    ensures Fetch(req, [Some(r1), Some(r2), Some(r3)] + more, env, now) == Fetch(req.(url := r3.location), more, env, now)
  {
    var req1 := req.(url := r1.location);
    var req2 := req.(url := r2.location);
    OneHopOutAllowed(req, r1.location, env);
    SameDomainAlwaysAccepted(req1, r2.location, env);
    OneHopOutAllowed(req2, r3.location, env);
    assert [Some(r1), Some(r2), Some(r3)] + more == [Some(r1)] + ([Some(r2)] + ([Some(r3)] + more));
    RedirectFollowed(req, r1, [Some(r2)] + ([Some(r3)] + more), env, now);
    RedirectFollowed(req1, r2, [Some(r3)] + more, env, now);
    RedirectFollowed(req2, r3, more, env, now);
  }

  /** What `Get` returns on success. */
  datatype Response = Response(request: Request, records: Records, expires: int)

  /** `Get`: sends the request, follows redirects by changing the request's
      URL, and stops at the first reply that is not a followed redirect. */
  method Get(req0: Request, replies: seq<Option<Reply>>, env: Collaborators, now: int)
    returns (req: Request, res: Result<Response, FetchError>)
    ensures req == Fetch(req0, replies, env, now).request
    ensures res.Failure? <==> Fetch(req0, replies, env, now).result.Failure?
    ensures res.Failure? ==> res.error == Fetch(req0, replies, env, now).result.error
    ensures res.Success? ==>
              var page := Fetch(req0, replies, env, now).result.value;
              && res.value.request == req
              && fresh(res.value.records)
              && res.value.records.body == page.lines
              && res.value.records.Contents() == ParseAll(page.lines, env)
              && res.value.expires == page.expires
  {
    req := req0;
    var i := 0;
    while i < |replies|
      invariant 0 <= i <= |replies|
      invariant Fetch(req0, replies, env, now) == Fetch(req, replies[i..], env, now)
      decreases |replies| - i
    {
      if replies[i].None? {
        return req, Failure(TransportFailure);
      }
      var reply := replies[i].value;
      assert replies[i..][1..] == replies[i + 1..];
      if 300 <= reply.status < 400 {
        var redirect := HandleRedirect(req, reply.location, env);
        if redirect.Failure? {
          return req, Failure(redirect.error);
        }
        req := req.(url := redirect.value);
      } else if 400 <= reply.status < 500 {
        return req, Failure(ClientError(reply.status, req.domain, req.url));
      } else if reply.status == 200 {
        var body := ReadBody(req, reply);
        if body.Failure? {
          return req, Failure(body.error);
        }
        var records := ParseBody(body.value, env);
        // the default expiry, unless the reply carries its own
        var expires := now + DefaultExpiry;
        if reply.expires.Some? {
          expires := reply.expires.value;
        }
        return req, Success(Response(req, records, expires));
      } else {
        return req, Failure(GeneralError(reply.status, req.domain, req.url));
      }
      i := i + 1;
    }
    return req, Failure(TransportFailure);
  }
}
