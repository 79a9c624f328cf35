/** The crawler's parsing tests (record_test.go, adstxt/adstxt_test.go),
    stated for every input of their shape rather than for the literal
    strings. The advertising-system domain checks are collaborators, so each
    statement says what they answer. */
module Fixtures {
  import opened Results
  import opened StringOps
  import opened External
  import opened Diagnostics
  import opened RecordParser
  import opened RecordsAggregator
  import opened AdsTxt

  /** A field value with no white space, comma, `=` or `#`, such as
      `greenadexchange.com`, `XF7342`, `DIRECT` or `5jyxf8k54`. */
  predicate Plain(x: string) {
    && x != []
    && ',' !in x && '=' !in x && '#' !in x
    && forall k :: 0 <= k < |x| ==> !IsSpace(x[k])
  }

  /** Padding after a comma: spaces and tabs only. */
  predicate Blank(p: string) {
    forall k :: 0 <= k < |p| ==> p[k] == ' ' || p[k] == '\t'
  }

  /** The domain passes both advertising-system checks. */
  predicate KnownAdSystem(d: string, env: Collaborators) {
    env.validateDomainName(d) && env.adSystemCNameError(d).None?
  }

  predicate SupportedType(t: string) {
    ToUpper(t) == AccountTypeDirect || ToUpper(t) == AccountTypeReseller
  }

  /** A plain value is its own trim. */
  lemma TrimPlain(x: string)
    requires Plain(x)
    ensures TrimSpace(x) == x
  {
    TrimSpaceAround("", x, "");
    assert "" + x + "" == x;
  }

  /** Padding in front of a plain value is trimmed away. */
  lemma TrimPadded(p: string, x: string)
    requires Blank(p) && Plain(x)
    ensures TrimSpace(p + x) == x
  {
    TrimSpaceAround(p, x, "");
    assert p + x + "" == p + x;
  }

  /** Padding holds no separator, comment marker or line end. */
  lemma BlankFree(p: string)
    requires Blank(p)
    ensures ',' !in p && '=' !in p && '#' !in p && '\r' !in p && '\n' !in p
  {
  }

  /** Splitting two comma-free fields joined by a comma. */
  lemma TwoFields(a: string, b: string)
    requires ',' !in a && ',' !in b
    ensures Split(a + "," + b, ',') == [a, b]
  {
    SplitFirst(a, ',', b);
    SplitNone(b, ',');
  }

  lemma Regroup(x: string, y: string, z: string)
    ensures x + "," + y + "," + z == x + [','] + (y + "," + z)
  {
  }

  /** Splitting three comma-free fields joined by commas. */
  lemma ThreeFields(a: string, b: string, c: string)
    requires ',' !in a && ',' !in b && ',' !in c
    ensures Split(a + "," + b + "," + c, ',') == [a, b, c]
  {
    Regroup(a, b, c);
    assert Split(a + [','] + (b + "," + c), ',') == [a] + Split(b + "," + c, ',') by {
      SplitFirst(a, ',', b + "," + c);
    }
    TwoFields(b, c);
  }

  /** Splitting four comma-free fields joined by commas. */
  lemma FourFields(a: string, b: string, c: string, e: string)
    requires ',' !in a && ',' !in b && ',' !in c && ',' !in e
    ensures Split(a + "," + b + "," + c + "," + e, ',') == [a, b, c, e]
  {
    var rest := b + "," + c + "," + e;
    assert a + "," + b + "," + c + "," + e == a + [','] + rest by {
      Regroup(a, b, c);
      Regroup(a + "," + b, c, e);
      Regroup(a, b + "," + c, e);
      Regroup(b, c, e);
    }
    assert Split(a + [','] + rest, ',') == [a] + Split(rest, ',') by {
      SplitFirst(a, ',', rest);
    }
    ThreeFields(b, c, e);
  }

  /** record_test.go, three fields (`greenadexchange.com,XF7342,  \tDIRECT`):
      the record holds the trimmed fields with the account type upper-cased
      and no certification authority id, and there is no warning. */
  lemma ThreeFieldRecord(d: string, id: string, p: string, t: string, env: Collaborators)
    requires Plain(d) && Plain(id) && Blank(p) && Plain(t)
    requires KnownAdSystem(d, env) && SupportedType(t)
    ensures ParseDataRecord(d + "," + id + "," + p + t, env) == Parsed(Some(DataRecord(d, id, ToUpper(t), "")), None)
  {
    var line := d + "," + id + "," + p + t;
    BlankFree(p);
    assert line == d + "," + id + "," + (p + t);
    ThreeFields(d, id, p + t);
    TrimPlain(d);
    TrimPlain(id);
    TrimPadded(p, t);
    WellFormedLineAccepted(line, env);
    DataRecordOfLine(line, env);
  }

  /** record_test.go, four fields (`greenadexchange.com, XF7342, DIRECT,
      5jyxf8k54`): the record holds the trimmed fields, the last one as its
      certification authority id, with a warning exactly when that id is not
      alphanumeric. */
  lemma FourFieldRecord(d: string, p1: string, id: string, p2: string, t: string, p3: string, c: string,
                        env: Collaborators)
    requires Plain(d) && Blank(p1) && Plain(id) && Blank(p2) && Plain(t) && Blank(p3) && Plain(c)
    requires KnownAdSystem(d, env) && SupportedType(t)
    ensures var r := ParseDataRecord(d + "," + p1 + id + "," + p2 + t + "," + p3 + c, env);
            && r.value == Some(DataRecord(d, id, ToUpper(t), c))
            && (r.warning.None? <==> IsAlphanumeric(c))
  {
    var line := d + "," + p1 + id + "," + p2 + t + "," + p3 + c;
    BlankFree(p1);
    BlankFree(p2);
    BlankFree(p3);
    assert line == d + "," + (p1 + id) + "," + (p2 + t) + "," + (p3 + c);
    FourFields(d, p1 + id, p2 + t, p3 + c);
    TrimPlain(d);
    TrimPadded(p1, id);
    TrimPadded(p2, t);
    TrimPadded(p3, c);
    WellFormedLineAccepted(line, env);
    DataRecordOfLine(line, env);
  }

  /** A plain value holds no line end. */
  lemma PlainNoLineEnds(x: string)
    requires Plain(x)
    ensures '\r' !in x && '\n' !in x
  {
  }

  lemma NoLineEndsOf(s: string)
    requires '\r' !in s && '\n' !in s
    ensures NoLineEnds(s)
  {
  }

  /** A three-field line holds no line end. */
  lemma ThreeFieldClean(d: string, id: string, p: string, t: string)
    requires Plain(d) && Plain(id) && Blank(p) && Plain(t)
    ensures NoLineEnds(d + "," + id + "," + p + t)
  {
    PlainNoLineEnds(d); PlainNoLineEnds(id); PlainNoLineEnds(t);
    BlankFree(p);
    NoLineEndsOf(d + "," + id + "," + p + t);
  }

  /** A four-field line holds no line end. */
  lemma FourFieldClean(d: string, p1: string, id: string, p2: string, t: string, p3: string, c: string)
    requires Plain(d) && Blank(p1) && Plain(id) && Blank(p2) && Plain(t) && Blank(p3) && Plain(c)
    ensures NoLineEnds(d + "," + p1 + id + "," + p2 + t + "," + p3 + c)
  {
    PlainNoLineEnds(d); PlainNoLineEnds(id); PlainNoLineEnds(t); PlainNoLineEnds(c);
    BlankFree(p1); BlankFree(p2); BlankFree(p3);
    NoLineEndsOf(d + "," + p1 + id + "," + p2 + t + "," + p3 + c);
  }

  /** A `key=value` line holds no line end. */
  lemma VariableClean(key: string, value: string)
    requires Plain(key) && Plain(value)
    ensures NoLineEnds(key + "=" + value)
  {
    PlainNoLineEnds(key); PlainNoLineEnds(value);
    NoLineEndsOf(key + "=" + value);
  }

  /** A line without `#` and without white space at its ends is kept whole
      by the comment stripping. */
  lemma KeptLine(line: string)
    requires line != [] && '#' !in line
    requires !IsSpace(line[0]) && !IsSpace(line[|line| - 1])
    ensures RemoveComment(line) == line
  {
    TrimSpaceAround("", line, "");
    assert "" + line + "" == line;
  }

  /** A line starting with `#` adds nothing. */
  lemma CommentLine(i: int, c: string, env: Collaborators)
    requires c != [] && c[0] == '#'
    ensures ParseLine(i, c, env) == NoEntries
  {
    assert IndexOf(c, '#') == 0;
    assert c[0..0] == [];
  }

  /** A line kept whole by the comment stripping, with two or three commas
      and no `=`, adds what `ParseDataRecord` makes of it. */
  lemma DataLineEntries(i: int, line: string, env: Collaborators)
    requires line != [] && '#' !in line && '=' !in line
    requires !IsSpace(line[0]) && !IsSpace(line[|line| - 1])
    requires |Split(line, ',')| == 3 || |Split(line, ',')| == 4
    ensures var p := ParseDataRecord(line, env);
            ParseLine(i, line, env) == Entries(ToSeq(p.value), [], Stamp(p.warning, i, line))
  {
    KeptLine(line);
    SplitCount(line, ',');
    CountPositive(line, '=');
  }

  /** A three-field line adds its record and nothing else. */
  lemma ThreeFieldLine(i: int, d: string, id: string, p: string, t: string, env: Collaborators)
    requires Plain(d) && Plain(id) && Blank(p) && Plain(t)
    requires KnownAdSystem(d, env) && SupportedType(t)
    ensures ParseLine(i, d + "," + id + "," + p + t, env) == Entries([DataRecord(d, id, ToUpper(t), "")], [], [])
  {
    var line := d + "," + id + "," + p + t;
    assert '#' !in line && '=' !in line && line != [] && !IsSpace(line[0]) && !IsSpace(line[|line| - 1]) by {
      BlankFree(p);
      assert line[0] == d[0] && line[|line| - 1] == t[|t| - 1];
    }
    assert |Split(line, ',')| == 3 by {
      BlankFree(p);
      assert line == d + "," + id + "," + (p + t);
      ThreeFields(d, id, p + t);
    }
    assert ParseDataRecord(line, env) == Parsed(Some(DataRecord(d, id, ToUpper(t), "")), None) by {
      ThreeFieldRecord(d, id, p, t, env);
    }
    DataLineEntries(i, line, env);
  }

  /** A four-field line adds its record, and a warning exactly when the
      certification authority id is not alphanumeric. */
  lemma FourFieldLine(i: int, d: string, p1: string, id: string, p2: string, t: string, p3: string, c: string,
                      env: Collaborators)
    requires Plain(d) && Blank(p1) && Plain(id) && Blank(p2) && Plain(t) && Blank(p3) && Plain(c)
    requires KnownAdSystem(d, env) && SupportedType(t)
    ensures var e := ParseLine(i, d + "," + p1 + id + "," + p2 + t + "," + p3 + c, env);
            && e.dataRecords == [DataRecord(d, id, ToUpper(t), c)]
            && e.variables == []
            && (e.warnings == [] <==> IsAlphanumeric(c))
            && (IsAlphanumeric(c) ==> e == Entries([DataRecord(d, id, ToUpper(t), c)], [], []))
  {
    var line := d + "," + p1 + id + "," + p2 + t + "," + p3 + c;
    assert '#' !in line && '=' !in line && line != [] && !IsSpace(line[0]) && !IsSpace(line[|line| - 1]) by {
      BlankFree(p1);
      BlankFree(p2);
      BlankFree(p3);
      assert line[0] == d[0] && line[|line| - 1] == c[|c| - 1];
    }
    assert |Split(line, ',')| == 4 by {
      BlankFree(p1);
      BlankFree(p2);
      BlankFree(p3);
      assert line == d + "," + (p1 + id) + "," + (p2 + t) + "," + (p3 + c);
      FourFields(d, p1 + id, p2 + t, p3 + c);
    }
    var r := ParseDataRecord(line, env);
    assert r.value == Some(DataRecord(d, id, ToUpper(t), c)) && (r.warning.None? <==> IsAlphanumeric(c)) by {
      FourFieldRecord(d, p1, id, p2, t, p3, c, env);
    }
    DataLineEntries(i, line, env);
  }

  /** A record line whose account type field is empty adds only the
      missing-type HIGH warning. */
  lemma MissingTypeLine(i: int, d: string, id: string, env: Collaborators)
    requires Plain(d) && Plain(id) && KnownAdSystem(d, env)
    ensures ParseLine(i, d + "," + id + ",", env) ==
              Entries([], [], [Warning(i, d + "," + id + ",", MissingAccountTypeMessage, High)])
  {
    var line := d + "," + id + ",";
    assert '#' !in line && '=' !in line && line != [] && !IsSpace(line[0]) && !IsSpace(line[|line| - 1]) by {
      assert line[0] == d[0] && line[|line| - 1] == ',';
    }
    var f := Split(line, ',');
    assert f == [d, id, ""] by {
      assert line == d + "," + id + "," + "";
      ThreeFields(d, id, "");
    }
    assert ParseDataRecord(line, env) == Parsed(None, Some(Flag(High, MissingAccountTypeMessage))) by {
      TrimPlain(d);
      TrimPlain(id);
      assert TrimSpace("") == "";
      RequiredFieldChecks(line, env);
    }
    DataLineEntries(i, line, env);
  }

  /** A `key=value` line of plain words is kept whole and has no comma. */
  lemma VariableLineKept(key: string, value: string)
    requires Plain(key) && Plain(value)
    ensures var line := key + "=" + value;
            RemoveComment(line) == line && Count(line, ',') == 0
  {
    var line := key + "=" + value;
    assert line[0] == key[0] && line[|line| - 1] == value[|value| - 1];
    KeptLine(line);
    CountPositive(line, ',');
  }

  /** A `key=value` line of plain words splits at its one `=` into key and
      value. */
  lemma VariableLineSplit(key: string, value: string)
    requires Plain(key) && Plain(value)
    ensures var line := key + "=" + value;
            && '=' in line
            && Count(line, '=') == 1
            && Split(line, '=') == [key, value]
  {
    var line := key + "=" + value;
    assert line[|key|] == '=';
    SplitFirst(key, '=', value);
    SplitNone(value, '=');
    SplitCount(line, '=');
  }

  /** Together: the line is kept whole, classified as a variable line, and
      splits into key and value. */
  lemma VariableLineFacts(key: string, value: string)
    requires Plain(key) && Plain(value)
    ensures var line := key + "=" + value;
            && RemoveComment(line) == line
            && Classify(line) == VariableLine
            && Split(line, '=') == [key, value]
  {
    VariableLineKept(key, value);
    VariableLineSplit(key, value);
  }

  /** A `key=value` line adds the variable when the key is `subdomain` or
      `contact` in any case, and otherwise a HIGH warning naming the key. */
  lemma VariableLineParsed(i: int, key: string, value: string, env: Collaborators)
    requires Plain(key) && Plain(value)
    ensures var line := key + "=" + value;
            ParseLine(i, line, env) ==
              if ToLower(key) == VarTypeSubdomain || ToLower(key) == VarTypeContact
              then Entries([], [Variable(ToLower(key), value)], [])
              else Entries([], [], [Warning(i, line, InvalidVariableMessage(key), High)])
  {
    VariableLineFacts(key, value);
  }

  /** One more line appends what that line yields, under its 1-based index. */
  lemma ParseAllSnoc(lines: seq<string>, x: string, env: Collaborators)
    ensures ParseAll(lines + [x], env) == ParseAll(lines, env).Append(ParseLine(|lines| + 1, x, env))
  {
    assert (lines + [x])[..|lines|] == lines;
  }

  /** The valid file of the parsing tests: a three-field line, a four-field
      line with a certification authority id, a comment line and a
      `subdomain=` (or `contact=`) variable, joined by `\n`, give both
      records, the variable and no warning. */
  lemma ValidFile(d: string, id: string, p: string, t: string, p1: string, p2: string, p3: string, c: string,
                  comment: string, key: string, value: string, env: Collaborators)
    requires Plain(d) && Plain(id) && Blank(p) && Plain(t) && Blank(p1) && Blank(p2) && Blank(p3) && Plain(c)
    requires KnownAdSystem(d, env) && SupportedType(t) && IsAlphanumeric(c)
    requires comment != [] && comment[0] == '#' && NoLineEnds(comment)
    requires Plain(key) && Plain(value)
    requires ToLower(key) == VarTypeSubdomain || ToLower(key) == VarTypeContact
    ensures ParseAll(Lines(Join([d + "," + id + "," + p + t,
                                 d + "," + p1 + id + "," + p2 + t + "," + p3 + c,
                                 comment,
                                 key + "=" + value], "\n")), env) ==
              Entries([DataRecord(d, id, ToUpper(t), ""), DataRecord(d, id, ToUpper(t), c)],
                      [Variable(ToLower(key), value)], [])
  {
    var l1 := d + "," + id + "," + p + t;
    var l2 := d + "," + p1 + id + "," + p2 + t + "," + p3 + c;
    var l4 := key + "=" + value;
    var r1 := DataRecord(d, id, ToUpper(t), "");
    var r2 := DataRecord(d, id, ToUpper(t), c);
    var v := Variable(ToLower(key), value);
    ThreeFieldClean(d, id, p, t);
    FourFieldClean(d, p1, id, p2, t, p3, c);
    VariableClean(key, value);
    JoinedRoundTrip([l1, l2, comment, l4], "\n");
    ThreeFieldLine(1, d, id, p, t, env);
    FourFieldLine(2, d, p1, id, p2, t, p3, c, env);
    CommentLine(3, comment, env);
    VariableLineParsed(4, key, value, env);
    FourLineEntries(l1, l2, comment, l4, Entries([r1], [], []), Entries([r2], [], []), NoEntries,
                    Entries([], [v], []), env);
    assert Entries([r1], [], []).Append(Entries([r2], [], [])).Append(NoEntries).Append(Entries([], [v], [])) ==
           Entries([r1, r2], [v], []) by {
      ValidFileEntries(r1, r2, v);
    }
  }

  /** A file whose first line has an empty account type: whatever follows,
      the first warning is the missing-type HIGH warning for line 1. */
  lemma MissingTypeFirst(d: string, id: string, rest: string, env: Collaborators)
    requires Plain(d) && Plain(id) && KnownAdSystem(d, env)
    ensures var e := ParseAll(Lines(d + "," + id + "," + "\n" + rest), env);
            && e.warnings != []
            && e.warnings[0] == Warning(1, d + "," + id + ",", MissingAccountTypeMessage, High)
  {
    var l1 := d + "," + id + ",";
    var w := Warning(1, l1, MissingAccountTypeMessage, High);
    var lines := Lines(l1 + "\n" + rest);
    assert lines[..1] == [l1] by {
      PlainNoLineEnds(d);
      PlainNoLineEnds(id);
      NoLineEndsOf(l1);
      LinesCons(l1, "\n", rest);
    }
    assert ParseAll([l1], env).warnings == [w] by {
      assert [l1][..0] == [];
      MissingTypeLine(1, d, id, env);
    }
    FirstWarning(lines, w, env);
  }

  /** The first line's warnings lead the warnings of the whole file. */
  lemma FirstWarning(lines: seq<string>, w: Warning, env: Collaborators)
    requires lines != [] && ParseAll(lines[..1], env).warnings == [w]
    ensures var all := ParseAll(lines, env).warnings;
            all != [] && all[0] == w
  {
    ParseAllPrefix(lines, 1, env);
  }

  /** A file whose variable line names an unknown variable type (such as
      `subdomains`): the records are kept, no variable is added, and the
      only warning is the HIGH warning naming the key on line 4. */
  lemma UnknownVariableFile(c1: string, d: string, p1: string, id: string, p2: string, t: string, p3: string,
                            c: string, c2: string, key: string, value: string, env: Collaborators)
    requires c1 != [] && c1[0] == '#' && NoLineEnds(c1)
    requires Plain(d) && Blank(p1) && Plain(id) && Blank(p2) && Plain(t) && Blank(p3) && Plain(c)
    requires KnownAdSystem(d, env) && SupportedType(t) && IsAlphanumeric(c)
    requires c2 != [] && c2[0] == '#' && NoLineEnds(c2)
    requires Plain(key) && Plain(value)
    requires ToLower(key) != VarTypeSubdomain && ToLower(key) != VarTypeContact
    ensures ParseAll(Lines(Join([c1, d + "," + p1 + id + "," + p2 + t + "," + p3 + c, c2, key + "=" + value],
                                "\n")), env) ==
              Entries([DataRecord(d, id, ToUpper(t), c)], [],
                      [Warning(4, key + "=" + value, InvalidVariableMessage(key), High)])
  {
    var l2 := d + "," + p1 + id + "," + p2 + t + "," + p3 + c;
    var l4 := key + "=" + value;
    var r2 := DataRecord(d, id, ToUpper(t), c);
    var w := Warning(4, l4, InvalidVariableMessage(key), High);
    FourFieldClean(d, p1, id, p2, t, p3, c);
    VariableClean(key, value);
    JoinedRoundTrip([c1, l2, c2, l4], "\n");
    CommentLine(1, c1, env);
    FourFieldLine(2, d, p1, id, p2, t, p3, c, env);
    CommentLine(3, c2, env);
    VariableLineParsed(4, key, value, env);
    FourLineEntries(c1, l2, c2, l4, NoEntries, Entries([r2], [], []), NoEntries, Entries([], [], [w]), env);
    assert NoEntries.Append(Entries([r2], [], [])).Append(NoEntries).Append(Entries([], [], [w])) ==
           Entries([r2], [], [w]) by {
      UnknownVariableEntries(r2, w);
    }
  }

  /** Each line's entries, in order, make up the entries of a four-line
      file. */
  lemma FourLineEntries(a: string, b: string, c: string, e: string, ea: Entries, eb: Entries, ec: Entries,
                        ee: Entries, env: Collaborators)
    requires ParseLine(1, a, env) == ea && ParseLine(2, b, env) == eb
    requires ParseLine(3, c, env) == ec && ParseLine(4, e, env) == ee
    ensures ParseAll([a, b, c, e], env) == ea.Append(eb).Append(ec).Append(ee)
  {
    var one: seq<string> := [] + [a];
    var two := one + [b];
    var three := two + [c];
    assert ParseAll(one, env) == NoEntries.Append(ea) by {
      ParseAllSnoc([], a, env);
    }
    assert ParseAll(two, env) == NoEntries.Append(ea).Append(eb) by {
      ParseAllSnoc(one, b, env);
    }
    assert ParseAll(three, env) == NoEntries.Append(ea).Append(eb).Append(ec) by {
      ParseAllSnoc(two, c, env);
    }
    assert ParseAll(three + [e], env) == NoEntries.Append(ea).Append(eb).Append(ec).Append(ee) by {
      ParseAllSnoc(three, e, env);
    }
    assert three + [e] == [a, b, c, e];
    assert NoEntries.Append(ea) == ea by {
      assert [] + ea.dataRecords == ea.dataRecords;
      assert [] + ea.variables == ea.variables;
      assert [] + ea.warnings == ea.warnings;
    }
  }

  lemma ValidFileEntries(r1: DataRecord, r2: DataRecord, v: Variable)
    ensures Entries([r1], [], []).Append(Entries([r2], [], [])).Append(NoEntries).Append(Entries([], [v], [])) ==
            Entries([r1, r2], [v], [])
  {
    assert [r1] + [r2] + [] + [] == [r1, r2];
    assert [] + [] + [] + [v] == [v];
  }

  lemma UnknownVariableEntries(r: DataRecord, w: Warning)
    ensures NoEntries.Append(Entries([r], [], [])).Append(NoEntries).Append(Entries([], [], [w])) ==
            Entries([r], [], [w])
  {
    assert [] + [r] + [] + [] == [r];
    assert [] + [] + [] + [w] == [w];
  }
}
