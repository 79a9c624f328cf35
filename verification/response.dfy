/** The records aggregator (response.go): classifies every line of an
    ads.txt file and accumulates data records, variables and warnings in
    line order, next to the original lines. */
module RecordsAggregator {
  import opened Results
  import opened StringOps
  import opened External
  import opened Diagnostics
  import opened RecordParser

  /** What has been collected: records, variables and warnings, in order. */
  datatype Entries = Entries(dataRecords: seq<DataRecord>, variables: seq<Variable>, warnings: seq<Warning>) {
    function Append(more: Entries): Entries {
      Entries(dataRecords + more.dataRecords, variables + more.variables, warnings + more.warnings)
    }

    function Size(): nat {
      |dataRecords| + |variables| + |warnings|
    }
  }

  const NoEntries := Entries([], [], [])

  const CouldNotParseMessage: string := "could not parse this line"

  /** The branch a comment-stripped line takes. */
  datatype LineKind = Skip | DataLine | VariableLine | Unparseable

  function Classify(line: string): LineKind {
    if |line| == 0 || line == [CommentDenote] then Skip
    else if Count(line, ',') >= 2 && Count(line, '=') <= 5 then DataLine
    else if IndexOf(line, '=') != -1 && Count(line, '=') == 1 then VariableLine
    else Unparseable
  }

  /** The four branches partition the stripped lines: empty lines are skipped,
      at least two commas and at most five `=` make a data line (checked
      first), otherwise exactly one `=` makes a variable line. */
  lemma ClassifyCases(line: string)
    requires CommentDenote !in line
    ensures Classify(line) == Skip <==> line == []
    ensures Classify(line) == DataLine <==> line != [] && Count(line, ',') >= 2 && Count(line, '=') <= 5
    ensures Classify(line) == VariableLine <==>
              line != [] && !(Count(line, ',') >= 2 && Count(line, '=') <= 5) && Count(line, '=') == 1
  {
    CountPositive(line, '=');
  }

  /** A warning from a line parser, stamped with the line index and the
      original text. */
  function Stamp(w: Option<Warning>, index: int, txt: string): seq<Warning> {
    match w
    case None => []
    case Some(w) => [w.(index := index, text := txt)]
  }

  /** What one line (1-based `index`, original text `txt`) adds. */
  function ParseLine(index: int, txt: string, env: Collaborators): Entries {
    var line := RemoveComment(txt);
    match Classify(line)
    case Skip => NoEntries
    case DataLine =>
      var p := ParseDataRecord(line, env);
      Entries(ToSeq(p.value), [], Stamp(p.warning, index, txt))
    case VariableLine =>
      // the variable is parsed from the original text, comment included
      CountPositive(line, '=');
      RemoveCommentChars(txt);
      var p := ParseVariable(txt);
      if p.warning.Some? then Entries([], [], Stamp(p.warning, index, txt))
      else Entries([], ToSeq(p.value), [])
    case Unparseable =>
      Entries([], [], [Warning(index, txt, CouldNotParseMessage, High)])
  }

  /** What each branch of the classifier adds. */
  lemma ParseLineCases(index: int, txt: string, env: Collaborators)
    ensures var line := RemoveComment(txt);
            var e := ParseLine(index, txt, env);
            && (Classify(line) == Skip ==> e == NoEntries)
            && (Classify(line) == DataLine ==>
                  var p := ParseDataRecord(line, env);
                  e == Entries(ToSeq(p.value), [], Stamp(p.warning, index, txt)))
            && (Classify(line) == VariableLine ==>
                  && '=' in txt
                  && var p := ParseVariable(txt);
                     e == (if p.warning.Some? then Entries([], [], Stamp(p.warning, index, txt))
                           else Entries([], ToSeq(p.value), [])))
            && (Classify(line) == Unparseable ==>
                  e == Entries([], [], [Warning(index, txt, CouldNotParseMessage, High)]))
  {
    var line := RemoveComment(txt);
    if Classify(line) == VariableLine {
      CountPositive(line, '=');
      RemoveCommentChars(txt);
    }
  }

  /** A blank or comment-only line adds nothing; any other line adds one or
      two entries: at most one warning, at most one record or variable, and
      two only for a data record that comes with a LOW warning. Every warning
      carries the line's index and original text, and a HIGH warning means
      nothing else came from the line. */
  lemma ParseLineShape(index: int, txt: string, env: Collaborators)
    ensures var e := ParseLine(index, txt, env);
            && (RemoveComment(txt) == [] <==> e == NoEntries)
            && (RemoveComment(txt) != [] ==> 1 <= e.Size() <= 2)
            && |e.warnings| <= 1
            && |e.dataRecords| + |e.variables| <= 1
            && (e.Size() == 2 ==> |e.dataRecords| == 1 && e.warnings[0].level == Low)
            && (forall w :: w in e.warnings ==> w.index == index && w.text == txt)
            && (e.warnings != [] && e.warnings[0].level == High ==> e.Size() == 1)
  {
    ClassifyCases(RemoveComment(txt));
  }

  /** The line parsed as a variable is the original text: its value runs to
      the next `=` or the end of the line, so a trailing comment stays in it. */
  lemma VariableKeepsComment(index: int, txt: string, env: Collaborators)
    requires Classify(RemoveComment(txt)) == VariableLine
    requires '=' in txt
    ensures ParseLine(index, txt, env).variables == ToSeq(ParseVariable(txt).value)
  {
  }

  /** A line the classifier cannot place adds exactly one HIGH warning. */
  lemma UnparseableLine(index: int, txt: string, env: Collaborators)
    requires Classify(RemoveComment(txt)) == Unparseable
    ensures ParseLine(index, txt, env) == Entries([], [], [Warning(index, txt, CouldNotParseMessage, High)])
  {
  }

  /** What a whole file adds: every line in order, indexed from 1. */
  function ParseAll(lines: seq<string>, env: Collaborators): Entries
    decreases |lines|
  {
    if lines == [] then NoEntries
    else ParseAll(lines[..|lines| - 1], env).Append(ParseLine(|lines|, lines[|lines| - 1], env))
  }

  /** Warnings are stamped with strictly increasing 1-based indices, each
      naming the line it came from. */
  ghost predicate WarningsStamped(ws: seq<Warning>, lines: seq<string>) {
    && (forall k :: 0 <= k < |ws| ==> 1 <= ws[k].index <= |lines| && ws[k].text == lines[ws[k].index - 1])
    && (forall j, k :: 0 <= j < k < |ws| ==> ws[j].index < ws[k].index)
  }

  /** Appending the warnings of line `n + 1` keeps the stamping of the
      first `n` lines. */
  lemma StampedSnoc(prev: seq<Warning>, last: seq<Warning>, lines: seq<string>)
    requires lines != []
    requires WarningsStamped(prev, lines[..|lines| - 1])
    requires |last| <= 1
    requires forall w :: w in last ==> w.index == |lines| && w.text == lines[|lines| - 1]
    ensures WarningsStamped(prev + last, lines)
  {
    var n := |lines|;
    var ws := prev + last;
    forall k | 0 <= k < |ws|
      ensures 1 <= ws[k].index <= n && ws[k].text == lines[ws[k].index - 1]
    {
      if k < |prev| {
        assert ws[k] == prev[k];
        assert lines[..n - 1][prev[k].index - 1] == lines[prev[k].index - 1];
      } else {
        assert ws[k] in last;
      }
    }
    forall j, k | 0 <= j < k < |ws|
      ensures ws[j].index < ws[k].index
    {
      if k >= |prev| {
        assert ws[k] in last;
        if j < |prev| {
          assert ws[j] == prev[j];
        }
      }
    }
  }

  /** Over a whole file: there are at most as many warnings as lines, at most
      as many records and variables together as lines, and the warnings are
      stamped in line order with the original text. */
  lemma {:induction false} ParseAllProperties(lines: seq<string>, env: Collaborators)
    ensures var e := ParseAll(lines, env);
            && |e.warnings| <= |lines|
            && |e.dataRecords| + |e.variables| <= |lines|
            && WarningsStamped(e.warnings, lines)
    decreases |lines|
  {
    if lines != [] {
      var n := |lines|;
      var init := lines[..n - 1];
      ParseAllProperties(init, env);
      ParseLineShape(n, lines[n - 1], env);
      var prev := ParseAll(init, env);
      var last := ParseLine(n, lines[n - 1], env);
      assert ParseAll(lines, env) == prev.Append(last);
      StampedSnoc(prev.warnings, last.warnings, lines);
    }
  }

  /** Later lines only add warnings after those of earlier lines: the
      warnings of the first `k` lines begin the warnings of the file. */
  lemma {:induction false} ParseAllPrefix(lines: seq<string>, k: nat, env: Collaborators)
    requires k <= |lines|
    ensures var w := ParseAll(lines[..k], env).warnings;
            var all := ParseAll(lines, env).warnings;
            |w| <= |all| && all[..|w|] == w
    decreases |lines|
  {
    if k == |lines| {
      assert lines[..k] == lines;
    } else {
      var n := |lines|;
      var init := lines[..n - 1];
      ParseAllPrefix(init, k, env);
      assert init[..k] == lines[..k];
      var w := ParseAll(lines[..k], env).warnings;
      var before := ParseAll(init, env).warnings;
      var all := ParseAll(lines, env).warnings;
      assert all == before + ParseLine(n, lines[n - 1], env).warnings;
      assert all[..|w|] == before[..|w|];
    }
  }

  /** Lines that are blank or comments only do not change the result. */
  lemma {:induction false} SkippedLineAddsNothing(lines: seq<string>, txt: string, env: Collaborators)
    requires RemoveComment(txt) == []
    ensures ParseAll(lines + [txt], env) == ParseAll(lines, env)
  {
    ParseLineShape(|lines| + 1, txt, env);
    assert (lines + [txt])[..|lines|] == lines;
    var e := ParseAll(lines, env);
    assert e.Append(NoEntries) == e;
  }

  /** The parsed content of one ads.txt file: the original lines and what
      was collected from them. */
  class Records {
    var dataRecords: seq<DataRecord>
    var variables: seq<Variable>
    var warnings: seq<Warning>
    var body: seq<string>

    function Contents(): Entries
      reads this
    {
      Entries(dataRecords, variables, warnings)
    }

    constructor (lines: seq<string>)
      ensures body == lines && Contents() == NoEntries
    {
      dataRecords, variables, warnings := [], [], [];
      body := lines;
    }

    /** Parses one line and appends what it yields. */
    method ParseRecord(index: int, txt: string, env: Collaborators)
      modifies this
      ensures body == old(body)
      ensures Contents() == old(Contents()).Append(ParseLine(index, txt, env))
    {
      ParseLineCases(index, txt, env);
      var line := RemoveComment(txt);

      // ignore comments and empty lines
      if |line| == 0 || line == [CommentDenote] {
        assert Contents().Append(NoEntries) == Contents();
        return;
      }

      if Count(line, ',') >= 2 && Count(line, '=') <= 5 {
        var p := ParseDataRecord(line, env);
        if p.warning.Some? {
          var w := p.warning.value.(index := index, text := txt);
          warnings := warnings + [w];
        }
        if p.value.Some? {
          dataRecords := dataRecords + [p.value.value];
        }
        assert variables == old(variables) + [];
      } else if IndexOf(line, '=') != -1 && Count(line, '=') == 1 {
        RemoveCommentChars(txt);
        var p := ParseVariable(txt);
        assert dataRecords == old(dataRecords) + [];
        if p.warning.Some? {
          var w := p.warning.value.(index := index, text := txt);
          warnings := warnings + [w];
          assert variables == old(variables) + [];
        } else {
          variables := variables + [p.value.value];
          assert warnings == old(warnings) + [];
        }
      } else {
        var w := Warning(index, txt, CouldNotParseMessage, High);
        warnings := warnings + [w];
        assert dataRecords == old(dataRecords) + [] && variables == old(variables) + [];
      }
    }
  }

  /** Parses the lines of a file in order, keeping the lines as the body. */
  method ParseRecords(lines: seq<string>, env: Collaborators) returns (r: Records)
    ensures fresh(r)
    ensures r.body == lines
    ensures r.Contents() == ParseAll(lines, env)
  {
    r := new Records(lines);
    var i := 0;
    while i < |lines|
      invariant 0 <= i <= |lines|
      invariant r.body == lines
      invariant r.Contents() == ParseAll(lines[..i], env)
    {
      r.ParseRecord(i + 1, lines[i], env);
      assert lines[..i + 1][..i] == lines[..i];
      i := i + 1;
    }
    assert lines[..i] == lines;
  }
}
