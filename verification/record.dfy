/** Parsing of single ads.txt lines into data records and variables
    (record.go), following sections 3.3 to 3.5 of the IAB ads.txt
    Specification v1.0.1. */
module RecordParser {
  import opened Results
  import opened StringOps
  import opened External
  import opened Diagnostics

  /** Comment marker. */
  const CommentDenote: char := '#'

  /** Supported account types. */
  const AccountTypeDirect: string := "DIRECT"
  const AccountTypeReseller: string := "RESELLER"

  /** Supported variable types. */
  const VarTypeSubdomain: string := "subdomain"
  const VarTypeContact: string := "contact"

  const FieldCountMessage: string :=
    "Data record must be declared as <FIELD #1>, <FIELD #2>, <FIELD #3>, <FIELD #4> (optional) pattern"
  const MissingDomainMessage: string := "Missing domain name of the advertising system (required)"
  const MissingAccountIDMessage: string := "Missing publisher's Account ID (required)"
  const MissingAccountTypeMessage: string := "Missing type of account/relationship (required)"

  /** One authorised relationship: the advertising system's domain, the
      publisher's account there, DIRECT or RESELLER, and an optional
      certification authority id ("" when absent). */
  datatype DataRecord = DataRecord(
    adverterDomain: string,
    publisherAccountID: string,
    accountType: string,
    certAuthorityID: string)

  /** A file-level directive: `subdomain` or `contact` and its value. */
  datatype Variable = Variable(varType: string, value: string)

  /** What a line parser returns: a value, a warning, or both (Go's pair of
      pointers, either of which may be nil). */
  datatype Parsed<T> = Parsed(value: Option<T>, warning: Option<Warning>)

  /** A warning as the line parsers build it: index and text are filled in
      later by the records aggregator. */
  function Flag(level: Severity, message: string): Warning {
    Warning(0, "", message, level)
  }

  function InvalidDomainMessage(domain: string): string {
    domain + " is not a valid Ad system domain"
  }

  function InvalidAccountTypeMessage(accountType: string): string {
    "[" + accountType + "] is not a valid account type. Account type must be [" +
    AccountTypeDirect + "] or [" + AccountTypeReseller + "]"
  }

  function NotAlphanumericMessage(certAuthorityID: string): string {
    "Certification Authority ID " + certAuthorityID + " may not be correct as it is not alphanumeric"
  }

  function InvalidVariableMessage(key: string): string {
    "[" + key + "] is not a valid Variable type"
  }

  /** `rec` is what the comma-separated fields of `line` describe when
      every required field is present and accepted. */
  ghost predicate RecordOfLine(rec: DataRecord, line: string, env: Collaborators) {
    var f := Split(line, ',');
    && (|f| == 3 || |f| == 4)
    && rec.adverterDomain == TrimSpace(f[0])
    && rec.adverterDomain != ""
    && env.validateDomainName(rec.adverterDomain)
    && env.adSystemCNameError(rec.adverterDomain).None?
    && rec.publisherAccountID == TrimSpace(f[1])
    && rec.publisherAccountID != ""
    && TrimSpace(f[2]) != ""
    && rec.accountType == ToUpper(TrimSpace(f[2]))
    && (rec.accountType == AccountTypeDirect || rec.accountType == AccountTypeReseller)
    && rec.certAuthorityID == (if |f| == 4 then TrimSpace(f[3]) else "")
  }

  /** Parses a data record `<FIELD #1>, <FIELD #2>, <FIELD #3>[, <FIELD #4>]`. */
  function ParseDataRecord(line: string, env: Collaborators): (r: Parsed<DataRecord>)
    // never two nils
    ensures r.value.Some? || r.warning.Some?
    // a HIGH warning always means no record
    ensures r.warning.Some? && r.warning.value.level == High ==> r.value.None?
    ensures r.warning.Some? ==> r.warning.value.index == 0 && r.warning.value.text == ""
  {
    var fields := Split(line, ',');
    if |fields| < 3 || |fields| > 4 then
      Parsed(None, Some(Flag(High, FieldCountMessage)))
    else
      var adverterDomain := TrimSpace(fields[0]);
      if |adverterDomain| == 0 then
        Parsed(None, Some(Flag(High, MissingDomainMessage)))
      else if !env.validateDomainName(adverterDomain) then
        Parsed(None, Some(Flag(High, InvalidDomainMessage(adverterDomain))))
      else if env.adSystemCNameError(adverterDomain).Some? then
        Parsed(None, Some(Flag(Low, env.adSystemCNameError(adverterDomain).value)))
      else
        var publisherAccountID := TrimSpace(fields[1]);
        if |publisherAccountID| == 0 then
          Parsed(None, Some(Flag(High, MissingAccountIDMessage)))
        else
          var accountType := TrimSpace(fields[2]);
          if |accountType| == 0 then
            Parsed(None, Some(Flag(High, MissingAccountTypeMessage)))
          else if ToUpper(accountType) != AccountTypeReseller && ToUpper(accountType) != AccountTypeDirect then
            Parsed(None, Some(Flag(High, InvalidAccountTypeMessage(accountType))))
          else
            var r := DataRecord(adverterDomain, publisherAccountID, ToUpper(accountType), "");
            if |fields| > 3 then
              var certAuthorityID := TrimSpace(fields[3]);
              var r := r.(certAuthorityID := certAuthorityID);
              if !IsAlphanumeric(certAuthorityID) then
                Parsed(Some(r), Some(Flag(Low, NotAlphanumericMessage(certAuthorityID))))
              else
                Parsed(Some(r), None)
            else
              Parsed(Some(r), None)
  }

  /** Any number of fields other than 3 or 4 is rejected first. */
  lemma FieldCountChecked(line: string, env: Collaborators)
    requires Count(line, ',') + 1 != 3 && Count(line, ',') + 1 != 4
    ensures ParseDataRecord(line, env) == Parsed(None, Some(Flag(High, FieldCountMessage)))
  {
    SplitCount(line, ',');
  }

  /** A record is built only from trimmed, non-empty, accepted fields, and
      comes with a (LOW) warning exactly when its certification authority id
      is not alphanumeric. */
  lemma DataRecordOfLine(line: string, env: Collaborators)
    ensures var r := ParseDataRecord(line, env);
            && (r.value.Some? ==> RecordOfLine(r.value.value, line, env))
            && (r.value.Some? ==> (r.warning.Some? <==> !IsAlphanumeric(r.value.value.certAuthorityID)))
  {
  }

  /** The advertiser domain is checked in order: missing, malformed, then
      not a known canonical name. The last one is a LOW warning, yet no
      record is returned. */
  lemma AdvertiserDomainChecks(line: string, env: Collaborators)
    requires |Split(line, ',')| == 3 || |Split(line, ',')| == 4
    ensures var d := TrimSpace(Split(line, ',')[0]);
            var r := ParseDataRecord(line, env);
            && (d == "" ==> r == Parsed(None, Some(Flag(High, MissingDomainMessage))))
            && (d != "" && !env.validateDomainName(d) ==>
                  r == Parsed(None, Some(Flag(High, InvalidDomainMessage(d)))))
            && (d != "" && env.validateDomainName(d) && env.adSystemCNameError(d).Some? ==>
                  r == Parsed(None, Some(Flag(Low, env.adSystemCNameError(d).value))))
  {
  }

  /** Once the advertiser domain is accepted, a missing account id, a missing
      account type or an unsupported account type each give a HIGH warning
      and no record. */
  lemma RequiredFieldChecks(line: string, env: Collaborators)
    requires |Split(line, ',')| == 3 || |Split(line, ',')| == 4
    requires var d := TrimSpace(Split(line, ',')[0]);
             d != "" && env.validateDomainName(d) && env.adSystemCNameError(d).None?
    ensures var f := Split(line, ',');
            var id := TrimSpace(f[1]);
            var t := TrimSpace(f[2]);
            var r := ParseDataRecord(line, env);
            && (id == "" ==> r == Parsed(None, Some(Flag(High, MissingAccountIDMessage))))
            && (id != "" && t == "" ==> r == Parsed(None, Some(Flag(High, MissingAccountTypeMessage))))
            && (id != "" && t != "" && ToUpper(t) != AccountTypeDirect && ToUpper(t) != AccountTypeReseller ==>
                  r == Parsed(None, Some(Flag(High, InvalidAccountTypeMessage(t)))))
  {
    var f := Split(line, ',');
    var d := TrimSpace(f[0]);
    var id := TrimSpace(f[1]);
    var t := TrimSpace(f[2]);
    assert |d| != 0;
    if id != "" {
      assert |id| != 0;
      if t != "" {
        assert |t| != 0;
      }
    }
  }

  /** Conversely, a line whose fields all pass the checks yields the record
      those fields describe, the account type matched case-insensitively and
      stored upper-cased. */
  lemma WellFormedLineAccepted(line: string, env: Collaborators)
    requires |Split(line, ',')| == 3 || |Split(line, ',')| == 4
    requires var f := Split(line, ',');
             var d := TrimSpace(f[0]);
             var t := ToUpper(TrimSpace(f[2]));
             && d != "" && env.validateDomainName(d) && env.adSystemCNameError(d).None?
             && TrimSpace(f[1]) != ""
             && (t == AccountTypeDirect || t == AccountTypeReseller)
    ensures var f := Split(line, ',');
            ParseDataRecord(line, env).value ==
              Some(DataRecord(TrimSpace(f[0]), TrimSpace(f[1]), ToUpper(TrimSpace(f[2])),
                              if |f| == 4 then TrimSpace(f[3]) else ""))
  {
    var t := TrimSpace(Split(line, ',')[2]);
    assert |ToUpper(t)| > 0;
    var r := ParseDataRecord(line, env);
    assert r.value.Some?;
    DataRecordOfLine(line, env);
  }

  /** Parses a variable `<VARIABLE>=<VALUE>`; the caller guarantees an `=`. */
  function ParseVariable(line: string): (r: Parsed<Variable>)
    requires '=' in line
    // exactly one of a variable and a warning
    ensures r.value.Some? != r.warning.Some?
  {
    var fields := Split(line, '=');
    SplitCount(line, '=');
    CountPositive(line, '=');
    var t := fields[0];
    if ToLower(t) == VarTypeSubdomain then
      Parsed(Some(Variable(VarTypeSubdomain, fields[1])), None)
    else if ToLower(t) == VarTypeContact then
      Parsed(Some(Variable(VarTypeContact, fields[1])), None)
    else
      Parsed(None, Some(Flag(High, InvalidVariableMessage(t))))
  }

  /** The key before the first `=` decides: `subdomain` or `contact` in any
      case gives a variable of that (lower-case) type whose value is the
      verbatim text after the first `=`, up to the next `=` or the end; any
      other key is named, as written, in a HIGH warning. */
  lemma VariableOfLine(line: string)
    requires '=' in line
    ensures var key := line[..IndexOf(line, '=')];
            var rest := line[IndexOf(line, '=') + 1..];
            var r := ParseVariable(line);
            && (r.value.Some? <==> ToLower(key) == VarTypeSubdomain || ToLower(key) == VarTypeContact)
            && (r.value.Some? ==> r.value.value.varType == ToLower(key))
            && (r.value.Some? ==> var v := r.value.value.value;
                                  '=' !in v && HasPrefix(rest, v) && (|v| == |rest| || rest[|v|] == '='))
            && (r.warning.Some? ==> r.warning.value == Flag(High, InvalidVariableMessage(key)))
  {
    var key := line[..IndexOf(line, '=')];
    var rest := line[IndexOf(line, '=') + 1..];
    var fields := Split(line, '=');
    assert |fields| >= 2 && fields[0] == key &&
           fields[1] == (if '=' in rest then rest[..IndexOf(rest, '=')] else rest) by {
      SplitHead(line, '=');
    }
    var v := fields[1];
    assert '=' !in v && HasPrefix(rest, v) && (|v| == |rest| || rest[|v|] == '=') by {
      IndexOfFirst(rest, '=');
    }
  }

  /** Removes a comment (from the first `#` on) and surrounding white space. */
  function RemoveComment(line: string): (r: string)
    ensures CommentDenote !in r
    ensures r == [] || (!IsSpace(r[0]) && !IsSpace(r[|r| - 1]))
    ensures CommentDenote !in line ==> r == TrimSpace(line)
  {
    var index := IndexOf(line, CommentDenote);
    var kept := if index != -1 then line[0..index] else line;
    IndexOfFirst(line, CommentDenote);
    TrimSpaceShape(kept);
    TrimSpaceChars(kept);
    TrimSpace(kept)
  }

  /** Every character kept occurs in the line. */
  lemma RemoveCommentChars(line: string)
    ensures forall c :: c in RemoveComment(line) ==> c in line
  {
    var index := IndexOf(line, CommentDenote);
    var kept := if index != -1 then line[0..index] else line;
    TrimSpaceChars(kept);
  }

  /** Removing comments twice is the same as removing them once. */
  lemma RemoveCommentIdempotent(line: string)
    ensures RemoveComment(RemoveComment(line)) == RemoveComment(line)
  {
    TrimSpaceIdempotent(if CommentDenote in line then line[..IndexOf(line, CommentDenote)] else line);
  }

  /** The result is the trimmed text before the first `#`. */
  lemma RemoveCommentPrefix(line: string, k: nat)
    requires k <= |line| && CommentDenote !in line[..k]
    requires k == |line| || line[k] == CommentDenote
    ensures RemoveComment(line) == TrimSpace(line[..k])
  {
    IndexOfFirst(line, CommentDenote);
    if k == |line| {
      assert line[..k] == line;
    }
  }
}
