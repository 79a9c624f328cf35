/** The part of Go's `strings` package the crawler uses, over ASCII.
    Strings are sequences of characters; every separator the crawler looks
    for is a single ASCII character. */
module StringOps {

  /** ASCII white space as Go's `unicode.IsSpace` sees it. */
  predicate IsSpace(c: char) {
    c == ' ' || c == '\t' || c == '\n' || c == '\r' || c == '\U{B}' || c == '\U{C}'
  }

  predicate IsAsciiAlphanumeric(c: char) {
    ('a' <= c <= 'z') || ('A' <= c <= 'Z') || ('0' <= c <= '9')
  }

  /** The regular expression `^[a-zA-Z0-9]*$`. */
  predicate IsAlphanumeric(s: string) {
    forall i :: 0 <= i < |s| ==> IsAsciiAlphanumeric(s[i])
  }

  /** Removes leading white space. */
  function TrimLeft(s: string): (r: string)
    ensures |r| <= |s|
  {
    if |s| > 0 && IsSpace(s[0]) then TrimLeft(s[1..]) else s
  }

  /** Removes trailing white space. */
  function TrimRight(s: string): (r: string)
    ensures |r| <= |s|
  {
    if |s| > 0 && IsSpace(s[|s| - 1]) then TrimRight(s[..|s| - 1]) else s
  }

  /** Go's `strings.TrimSpace`. */
  function TrimSpace(s: string): string {
    TrimRight(TrimLeft(s))
  }

  /** Only leading white space is removed, and all of it. */
  lemma {:induction false} TrimLeftShape(s: string)
    ensures var r := TrimLeft(s);
            && r == s[|s| - |r|..]
            && (forall i :: 0 <= i < |s| - |r| ==> IsSpace(s[i]))
            && (r == [] || !IsSpace(r[0]))
  {
    if |s| > 0 && IsSpace(s[0]) {
      TrimLeftShape(s[1..]);
    }
  }

  /** Only trailing white space is removed, and all of it. */
  lemma {:induction false} TrimRightShape(s: string)
    ensures var r := TrimRight(s);
            && r == s[..|r|]
            && (forall i :: |r| <= i < |s| ==> IsSpace(s[i]))
            && (r == [] || !IsSpace(r[|r| - 1]))
  {
    if |s| > 0 && IsSpace(s[|s| - 1]) {
      TrimRightShape(s[..|s| - 1]);
    }
  }

  /** The trimmed string is a contiguous piece of the input with no white
      space at either end, and only white space was cut off around it. */
  lemma TrimSpaceShape(s: string)
    ensures var r := TrimSpace(s);
            var k := |s| - |TrimLeft(s)|;
            && k + |r| <= |s| && r == s[k..k + |r|]
            && (r == [] || (!IsSpace(r[0]) && !IsSpace(r[|r| - 1])))
            && (forall i :: 0 <= i < k ==> IsSpace(s[i]))
            && (forall i :: k + |r| <= i < |s| ==> IsSpace(s[i]))
  {
    var l := TrimLeft(s);
    TrimLeftShape(s);
    TrimRightShape(l);
    var r := TrimRight(l);
    var k := |s| - |l|;
    assert r == s[k..k + |r|];
  }

  /** Every character of the trimmed string occurs in the input. */
  lemma TrimSpaceChars(s: string)
    ensures forall c :: c in TrimSpace(s) ==> c in s
  {
    TrimSpaceShape(s);
    var r := TrimSpace(s);
    var k := |s| - |TrimLeft(s)|;
    forall c | c in r ensures c in s {
      var j :| 0 <= j < |r| && r[j] == c;
      assert s[k + j] == c;
    }
  }

  /** Trimming is idempotent. */
  lemma TrimSpaceIdempotent(s: string)
    ensures TrimSpace(TrimSpace(s)) == TrimSpace(s)
  {
    var r := TrimSpace(s);
    TrimSpaceShape(s);
    assert TrimLeft(r) == r;
    assert TrimRight(r) == r;
  }

  function UpperChar(c: char): char {
    if 'a' <= c <= 'z' then (c as int - 32) as char else c
  }

  function LowerChar(c: char): char {
    if 'A' <= c <= 'Z' then (c as int + 32) as char else c
  }

  /** Go's `strings.ToUpper`, over ASCII. */
  function ToUpper(s: string): (r: string)
    ensures |r| == |s|
  {
    seq(|s|, i requires 0 <= i < |s| => UpperChar(s[i]))
  }

  /** Go's `strings.ToLower`, over ASCII. */
  function ToLower(s: string): (r: string)
    ensures |r| == |s|
  {
    seq(|s|, i requires 0 <= i < |s| => LowerChar(s[i]))
  }

  /** Go's `strings.Count` for a one-character separator. */
  function Count(s: string, c: char): nat {
    if s == [] then 0 else (if s[0] == c then 1 else 0) + Count(s[1..], c)
  }

  lemma {:induction false} CountConcat(a: string, b: string, c: char)
    ensures Count(a + b, c) == Count(a, c) + Count(b, c)
  {
    if a == [] {
      assert a + b == b;
    } else {
      assert (a + b)[1..] == a[1..] + b;
      CountConcat(a[1..], b, c);
    }
  }

  /** A character occurs exactly when its count is positive. */
  lemma {:induction false} CountPositive(s: string, c: char)
    ensures Count(s, c) > 0 <==> c in s
  {
    if s != [] {
      CountPositive(s[1..], c);
      assert s == [s[0]] + s[1..];
    }
  }

  /** Go's `strings.Index` for a one-character separator: -1 when absent. */
  function IndexOf(s: string, c: char): (r: int)
    ensures -1 <= r < |s|
    ensures r == -1 <==> c !in s
    ensures r >= 0 ==> s[r] == c
  {
    if s == [] then -1
    else if s[0] == c then 0
    else
      var k := IndexOf(s[1..], c);
      if k < 0 then -1 else k + 1
  }

  /** `IndexOf` finds the first occurrence. */
  lemma {:induction false} IndexOfFirst(s: string, c: char)
    ensures IndexOf(s, c) >= 0 ==> c !in s[..IndexOf(s, c)]
  {
    if s != [] && s[0] != c {
      IndexOfFirst(s[1..], c);
      if IndexOf(s, c) >= 0 {
        assert s[..IndexOf(s, c)] == [s[0]] + s[1..][..IndexOf(s[1..], c)];
      }
    }
  }

  /** Go's `strings.IndexAny` (and `bytes.IndexAny`): the first position
      holding any of `chars`, or -1. */
  function IndexAny(s: string, chars: string): (r: int)
    ensures -1 <= r < |s|
  {
    if s == [] then -1
    else if s[0] in chars then 0
    else
      var k := IndexAny(s[1..], chars);
      if k < 0 then -1 else k + 1
  }

  /** `IndexAny` finds the first position holding one of `chars`, and -1
      means there is none. */
  lemma {:induction false} IndexAnyFirst(s: string, chars: string)
    ensures var r := IndexAny(s, chars);
            && (r == -1 <==> forall j :: 0 <= j < |s| ==> s[j] !in chars)
            && (r >= 0 ==> s[r] in chars && forall j :: 0 <= j < r ==> s[j] !in chars)
  {
    if s != [] && s[0] !in chars {
      IndexAnyFirst(s[1..], chars);
      assert forall j :: 1 <= j < |s| ==> s[j] == s[1..][j - 1];
    }
  }

  /** Go's `strings.Split` for a one-character separator. */
  function Split(s: string, sep: char): (r: seq<string>)
    decreases |s|
  {
    var k := IndexOf(s, sep);
    if k < 0 then [s] else [s[..k]] + Split(s[k + 1..], sep)
  }

  /** Go's `strings.Join`: the pieces with `sep` between each two. */
  function Join(parts: seq<string>, sep: string): string {
    if parts == [] then ""
    else if |parts| == 1 then parts[0]
    else parts[0] + sep + Join(parts[1..], sep)
  }

  /** Splitting yields one more piece than there are separators. */
  lemma {:induction false} SplitCount(s: string, sep: char)
    ensures |Split(s, sep)| == Count(s, sep) + 1
    decreases |s|
  {
    var k := IndexOf(s, sep);
    if k < 0 {
      CountPositive(s, sep);
    } else {
      var rest := s[k + 1..];
      IndexOfFirst(s, sep);
      SplitCount(rest, sep);
      assert s == s[..k] + ([sep] + rest);
      CountConcat(s[..k], [sep] + rest, sep);
      CountConcat([sep], rest, sep);
      CountPositive(s[..k], sep);
    }
  }

  /** No piece holds a separator. */
  lemma {:induction false} SplitPiecesFree(s: string, sep: char)
    ensures forall i :: 0 <= i < |Split(s, sep)| ==> sep !in Split(s, sep)[i]
    decreases |s|
  {
    var k := IndexOf(s, sep);
    IndexOfFirst(s, sep);
    if k >= 0 {
      SplitPiecesFree(s[k + 1..], sep);
    }
  }

  lemma JoinCons(a: string, tail: seq<string>, sep: string)
    requires |tail| >= 1
    ensures Join([a] + tail, sep) == a + sep + Join(tail, sep)
  {
    assert ([a] + tail)[1..] == tail;
  }

  /** Joining the pieces with the separator gives the input back. */
  lemma {:induction false} SplitJoin(s: string, sep: char)
    ensures Join(Split(s, sep), [sep]) == s
    decreases |s|
  {
    var k := IndexOf(s, sep);
    if k < 0 {
      assert Split(s, sep) == [s];
    } else {
      var head := s[..k];
      var rest := s[k + 1..];
      var tail := Split(rest, sep);
      assert Join(Split(s, sep), [sep]) == head + [sep] + Join(tail, [sep]) by {
        SplitUnfold(s, sep);
        JoinCons(head, tail, [sep]);
      }
      assert Join(tail, [sep]) == rest by {
        SplitJoin(rest, sep);
      }
      assert s == head + [sep] + rest;
    }
  }

  /** One step of `Split` when a separator is present. */
  lemma SplitUnfold(s: string, sep: char)
    requires sep in s
    ensures var k := IndexOf(s, sep);
            && Split(s, sep) == [s[..k]] + Split(s[k + 1..], sep)
            && |Split(s[k + 1..], sep)| >= 1
  {
    var k := IndexOf(s, sep);
    assert Split(s, sep) == [s[..k]] + Split(s[k + 1..], sep) by {
      SplitStep(s, sep, k);
    }
    assert |Split(s[k + 1..], sep)| >= 1 by {
      SplitNonEmpty(s[k + 1..], sep);
    }
  }

  lemma SplitStep(s: string, sep: char, k: int)
    requires 0 <= k < |s| && k == IndexOf(s, sep)
    ensures Split(s, sep) == [s[..k]] + Split(s[k + 1..], sep)
  {
  }

  lemma SplitNonEmpty(s: string, sep: char)
    ensures |Split(s, sep)| >= 1
  {
    var k := IndexOf(s, sep);
    if k >= 0 {
      SplitStep(s, sep, k);
    }
  }

  /** The first piece is the text before the first separator; when there is
      a separator, the second piece is the text between the first and the
      second one (or up to the end). */
  lemma SplitHead(s: string, sep: char)
    ensures Split(s, sep)[0] == (if sep in s then s[..IndexOf(s, sep)] else s)
    ensures sep in s ==> |Split(s, sep)| >= 2 &&
                         Split(s, sep)[1] == (var rest := s[IndexOf(s, sep) + 1..];
                                              if sep in rest then rest[..IndexOf(rest, sep)] else rest)
  {
  }

  /** Splitting a string without separators gives the string itself. */
  lemma SplitNone(s: string, sep: char)
    requires sep !in s
    ensures Split(s, sep) == [s]
  {
  }

  /** Splitting peels off the text before the first separator. */
  lemma SplitFirst(a: string, sep: char, b: string)
    requires sep !in a
    ensures Split(a + [sep] + b, sep) == [a] + Split(b, sep)
  {
    var s := a + [sep] + b;
    var k := IndexOf(s, sep);
    IndexOfFirst(s, sep);
    assert s[|a|] == sep;
    assert s[..|a|] == a;
    assert k == |a|;
    assert s[k + 1..] == b;
  }

  /** Splitting pieces joined by a separator none of them holds gives the
      pieces back. */
  lemma {:induction false} SplitOfJoin(parts: seq<string>, sep: char)
    requires parts != []
    requires forall i :: 0 <= i < |parts| ==> sep !in parts[i]
    ensures Split(Join(parts, [sep]), sep) == parts
    decreases |parts|
  {
    if |parts| == 1 {
      SplitNone(parts[0], sep);
    } else {
      var tail := parts[1..];
      assert Join(parts, [sep]) == parts[0] + [sep] + Join(tail, [sep]);
      SplitFirst(parts[0], sep, Join(tail, [sep]));
      SplitOfJoin(tail, sep);
      assert [parts[0]] + tail == parts;
    }
  }

  /** Trimming removes exactly the white space around a core that does not
      start or end with white space. */
  lemma TrimSpaceAround(pre: string, core: string, post: string)
    requires forall i :: 0 <= i < |pre| ==> IsSpace(pre[i])
    requires forall i :: 0 <= i < |post| ==> IsSpace(post[i])
    requires core != [] && !IsSpace(core[0]) && !IsSpace(core[|core| - 1])
    ensures TrimSpace(pre + core + post) == core
  {
    var s := pre + core + post;
    var l := TrimLeft(s);
    TrimLeftShape(s);
    var k := |s| - |l|;
    assert s[|pre|] == core[0];
    assert forall i :: 0 <= i < |pre| ==> s[i] == pre[i];
    assert k == |pre|;
    assert l == core + post;
    var r := TrimRight(l);
    TrimRightShape(l);
    assert l[|core| - 1] == core[|core| - 1];
    assert forall i :: |core| <= i < |l| ==> l[i] == post[i - |core|];
    assert |r| == |core|;
    assert r == core;
  }

  predicate HasPrefix(s: string, prefix: string) {
    |prefix| <= |s| && s[..|prefix|] == prefix
  }

  predicate HasSuffix(s: string, suffix: string) {
    |suffix| <= |s| && s[|s| - |suffix|..] == suffix
  }

  /** Go's `strings.TrimSuffix`: removes one occurrence of the suffix. */
  function TrimSuffix(s: string, suffix: string): (r: string)
    ensures HasSuffix(s, suffix) ==> r + suffix == s
    ensures !HasSuffix(s, suffix) ==> r == s
  {
    if HasSuffix(s, suffix) then s[..|s| - |suffix|] else s
  }
}
