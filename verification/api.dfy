/**
 * The guarded resolvers: the manifest's Next.js version and the days since the
 * tracked issue was opened. Each runs a chain of checks inside a `try`, and the
 * `catch` replaces any failure with a fixed fallback, so neither ever throws.
 */
module Api {
  import opened Wrappers
  import opened Ecma
  import opened Fetch
  import opened Constants
  import opened Types
  import opened Schemas

  // ---- getOpenNextVersion ----

  const FallbackVersion: string := "15.x.x (error loading)"

  const UnparseablePrefix: string := "Could not parse version number from: "

  /** The record the `catch` returns, carrying the caught error's message. */
  function VersionFallback(message: string): VersionInfo {
    VersionInfo(false, Int(15), FallbackVersion, Some(message))
  }

  /** The major version of a version string: `parseInt(version.split('.')[0], 10)`. */
  function MajorVersion(version: string): (r: Num)
    ensures var head := Unsigned(BeforeFirstDot(version));
      r.NaN? <==> head == [] || !IsDecimalDigit(head[0])
  {
    ParseInt(BeforeFirstDot(version))
  }

  /** The body of the `try`: the record it returns, or the message of the error it throws. */
  function ResolveVersion(outcome: Outcome, schemaMessage: string): Result<VersionInfo> {
    match outcome
    case NetworkError(message) => Failure(message)
    case Received(response) =>
      if !Ok(response) then
        Failure("Failed to fetch package.json: " + IntToString(response.status) + " " + response.statusText)
      else
        match response.body
        case Undecodable(message) => Failure(message)
        case Decoded(data) =>
          if !Truthy(data) || !TypeofObject(data) then Failure("Invalid response: expected JSON object")
          else
            match PackageJsonNext(data)
            case None => Failure(schemaMessage)
            case Some(version) =>
              if version == "" then Failure("Invalid version format in package.json")
              else
                var versionNumber := MajorVersion(version);
                if versionNumber.NaN? then Failure(UnparseablePrefix + version)
                else Success(VersionInfo(AtLeast(versionNumber, TargetVersion), versionNumber, version, None))
  }

  /**
   * `getOpenNextVersion()`, given what `fetch` and `response.json()` produced and the
   * message zod reports when the manifest does not match its schema. Total: every
   * input yields a record; a record with an error is the fixed fallback, and a
   * record without one carries the manifest's version with its major and verdict.
   */
  function GetOpenNextVersion(outcome: Outcome, schemaMessage: string): (r: VersionInfo)
    ensures r.error.Some? ==> !r.isOpenNext16Yet && r.versionNumber == Int(15) && r.version == FallbackVersion
    ensures r.error.None? ==>
      && outcome.Received? && Ok(outcome.response) && outcome.response.body.Decoded?
      && PackageJsonNext(outcome.response.body.json) == Some(r.version)
      && r.version != ""
      && r.versionNumber == MajorVersion(r.version) && r.versionNumber.Int?
      && (r.isOpenNext16Yet <==> r.versionNumber.value >= TargetVersion)
  {
    match ResolveVersion(outcome, schemaMessage)
    case Success(info) => info
    case Failure(message) => VersionFallback(message)
  }

  /** A non-ok HTTP status yields the fallback, naming the status and its reason phrase. */
  lemma NonOkStatusFallsBack(response: Response, schemaMessage: string)
    requires !Ok(response)
    ensures GetOpenNextVersion(Received(response), schemaMessage)
      == VersionFallback("Failed to fetch package.json: " + IntToString(response.status) + " " + response.statusText)
  {
  }

  /** A decoded body that is null, a primitive or falsy yields the fallback with a fixed message. */
  lemma NonObjectBodyFallsBack(status: nat, statusText: string, data: Json, schemaMessage: string)
    requires 200 <= status <= 299
    requires !data.JArray? && !data.JObject?
    ensures GetOpenNextVersion(Received(Response(status, statusText, Decoded(data))), schemaMessage)
      == VersionFallback("Invalid response: expected JSON object")
  {
  }

  /** An empty `dependencies.next` passes the schema but yields the fallback. */
  lemma EmptyVersionFallsBack(status: nat, statusText: string, data: Json, schemaMessage: string)
    requires 200 <= status <= 299
    requires PackageJsonNext(data) == Some("")
    ensures GetOpenNextVersion(Received(Response(status, statusText, Decoded(data))), schemaMessage)
      == VersionFallback("Invalid version format in package.json")
  {
  }

  /** A version whose first segment has no leading digits (`^16.0.0`, `v16`) yields the fallback naming it. */
  lemma UnparseableMajorFallsBack(status: nat, statusText: string, data: Json, schemaMessage: string, version: string)
    requires 200 <= status <= 299
    requires PackageJsonNext(data) == Some(version) && version != ""
    requires Unsigned(BeforeFirstDot(version)) == [] || !IsDecimalDigit(Unsigned(BeforeFirstDot(version))[0])
    ensures GetOpenNextVersion(Received(Response(status, statusText, Decoded(data))), schemaMessage)
      == VersionFallback(UnparseablePrefix + version)
  {
    assert MajorVersion(version) == NaN;
  }

  /** A caret range such as `^16.0.0` has no leading digits before its first dot. */
  lemma CaretVersionFallsBack(status: nat, statusText: string, schemaMessage: string)
    requires 200 <= status <= 299
    ensures GetOpenNextVersion(Received(Response(status, statusText, Decoded(Manifest("^16.0.0")))), schemaMessage)
      == VersionFallback(UnparseablePrefix + "^16.0.0")
  {
    CaretVersionHasNoMajor();
    MajorNaNFallsBack(status, statusText, "^16.0.0", schemaMessage);
  }

  lemma CaretVersionHasNoMajor()
    ensures MajorVersion("^16.0.0") == NaN
  {
    assert "^16.0.0" == "^16" + "." + "0.0";
    BeforeFirstDotOf("^16", "0.0");
    ParseIntOfNonNumeral("^16");
  }

  /** Nor does a `v`-prefixed version such as `v16`. */
  lemma PrefixedVersionFallsBack(status: nat, statusText: string, schemaMessage: string)
    requires 200 <= status <= 299
    ensures GetOpenNextVersion(Received(Response(status, statusText, Decoded(Manifest("v16")))), schemaMessage)
      == VersionFallback(UnparseablePrefix + "v16")
  {
    assert BeforeFirstDot("v16") == "v16";
    ParseIntOfNonNumeral("v16");
    MajorNaNFallsBack(status, statusText, "v16", schemaMessage);
  }

  lemma MajorNaNFallsBack(status: nat, statusText: string, version: string, schemaMessage: string)
    requires 200 <= status <= 299
    requires version != "" && MajorVersion(version) == NaN
    ensures GetOpenNextVersion(Received(Response(status, statusText, Decoded(Manifest(version)))), schemaMessage)
      == VersionFallback(UnparseablePrefix + version)
  {
    PackageJsonNextOfManifest(version, map[], map[]);
  }

  /**
   * For a manifest whose version is `<major>.<rest>`, the resolver succeeds with that
   * version unchanged, that major, and the verdict `major >= 16`.
   */
  lemma DottedVersionResolves(status: nat, statusText: string, major: int, rest: string, schemaMessage: string)
    requires 200 <= status <= 299
    ensures var version := IntToString(major) + "." + rest;
      GetOpenNextVersion(Received(Response(status, statusText, Decoded(Manifest(version)))), schemaMessage)
        == VersionInfo(major >= 16, Int(major), version, None)
  {
    var version := IntToString(major) + "." + rest;
    MajorOfDottedVersion(major, rest);
    PackageJsonNextOfManifest(version, map[], map[]);
  }

  /** The first dot-segment of `<major>.<rest>` is the rendering of `major`. */
  lemma DottedVersionHead(major: int, rest: string)
    ensures BeforeFirstDot(IntToString(major) + "." + rest) == IntToString(major)
  {
    var digits := IntToString(major);
    assert '.' !in digits by {
      assert forall i :: 0 <= i < |digits| ==> digits[i] == '-' || IsDecimalDigit(digits[i]);
    }
    BeforeFirstDotOf(digits, rest);
  }

  /** The major of `<major>.<rest>` is `major`, whatever follows the first dot. */
  lemma MajorOfDottedVersion(major: int, rest: string)
    ensures MajorVersion(IntToString(major) + "." + rest) == Int(major)
  {
    DottedVersionHead(major, rest);
    ParseIntOfIntToString(major);
  }

  /** `16.2.0` meets the target. */
  lemma TargetVersionExample(status: nat, statusText: string, schemaMessage: string)
    requires 200 <= status <= 299
    ensures GetOpenNextVersion(Received(Response(status, statusText, Decoded(Manifest("16.2.0")))), schemaMessage)
      == VersionInfo(true, Int(16), "16.2.0", None)
  {
    assert NatToString(16) == NatToString(1) + ['6'];
    assert IntToString(16) + "." + "2.0" == "16.2.0";
    DottedVersionResolves(status, statusText, 16, "2.0", schemaMessage);
  }

  /** `15.9.9` falls short of it. */
  lemma PreviousVersionExample(status: nat, statusText: string, schemaMessage: string)
    requires 200 <= status <= 299
    ensures GetOpenNextVersion(Received(Response(status, statusText, Decoded(Manifest("15.9.9")))), schemaMessage)
      == VersionInfo(false, Int(15), "15.9.9", None)
  {
    assert NatToString(15) == NatToString(1) + ['5'];
    assert IntToString(15) + "." + "9.9" == "15.9.9";
    DottedVersionResolves(status, statusText, 15, "9.9", schemaMessage);
  }

  // ---- getDaysSinceIssueCreation ----

  /** The instant of the fixed creation date: 2025-11-04 at UTC midnight, in ms. */
  const FallbackIssueInstant: int := 1762214400000

  /** The fixed creation date has the date-only form. */
  lemma FallbackIssueDateForm()
    ensures IsDateOnlyForm(FallbackIssueDate)
    ensures FallbackIssueDate[..4] == "2025" && FallbackIssueDate[5..7] == "11" && FallbackIssueDate[8..] == "04"
  {
    assert FallbackIssueDate == "2025" + "-" + "11" + "-" + "04";
    assert FallbackIssueDate[..4] == "2025";
    assert FallbackIssueDate[5..7] == "11";
    assert FallbackIssueDate[8..] == "04";
  }

  /** The year field reads as 2025. */
  lemma FallbackIssueYear()
    ensures DigitsValue("2025") == 2025
  {
    DigitsValueAppend([], '2');
    DigitsValueAppend("2", '0');
    DigitsValueAppend("20", '2');
    DigitsValueAppend("202", '5');
    assert "202" + ['5'] == "2025";
  }

  /** The month field reads as 11 and the day field as 4. */
  lemma FallbackIssueMonthAndDay()
    ensures DigitsValue("11") == 11 && DigitsValue("04") == 4
  {
    DigitsValueAppend([], '1');
    DigitsValueAppend("1", '1');
    assert "1" + ['1'] == "11";
    DigitsValueAppend([], '0');
    DigitsValueAppend("0", '4');
    assert "0" + ['4'] == "04";
  }

  /** 4 November 2025 is day 20396 of the epoch, which starts at 1762214400000 ms. */
  lemma FallbackIssueDayNumber()
    ensures (DayFromYear(2025) + DaysBeforeMonth(2025, 11) + 4 - 1) * MsPerDay == FallbackIssueInstant
  {
    assert DayFromYear(2025) == 20089;
    assert !InLeapYear(2025) && DaysBeforeMonth(2025, 11) == 304;
  }

  /** `new Date(FALLBACK_ISSUE_DATE).getTime()`. */
  lemma FallbackIssueDateInstant()
    ensures ParseDateOnly(FallbackIssueDate) == Some(FallbackIssueInstant)
  {
    FallbackIssueDateForm();
    FallbackIssueYear();
    FallbackIssueMonthAndDay();
    ParseDateOnlyOfFields(FallbackIssueDate, 2025, 11, 4);
    FallbackIssueDayNumber();
  }

  /**
   * The days the `catch` reports: the whole days since the fixed creation date,
   * clamped to 0 (`fallbackDays > 0 ? fallbackDays : 0`, and NaN > 0 is false).
   */
  function FallbackDays(now: int): (d: int)
    ensures d >= 0
    ensures d == if now >= FallbackIssueInstant then DaysBetween(FallbackIssueInstant, now) else 0
  {
    FallbackIssueDateInstant();
    match ParseDateOnly(FallbackIssueDate)
    case Some(fallbackDate) =>
      var fallbackDays := DaysBetween(fallbackDate, now);
      if fallbackDays > 0 then fallbackDays else 0
    case None => 0
  }

  /**
   * The body of the `try`: whole days since the issue's `created_at`, or the message
   * of the error it throws. `parseDate` is `new Date(s).getTime()` (None for NaN).
   */
  function ResolveDaysSinceCreation(outcome: Outcome, parseDate: string -> Option<int>, now: int): Result<int> {
    match outcome
    case NetworkError(message) => Failure(message)
    case Received(response) =>
      if !Ok(response) then
        Failure("Failed to fetch GitHub issue: " + IntToString(response.status) + " " + response.statusText)
      else
        match response.body
        case Undecodable(message) => Failure(message)
        case Decoded(data) =>
          if !Truthy(data) || !TypeofObject(data) then Failure("Invalid response: expected JSON object")
          else
            var createdAtField := Property(data, "created_at");
            if createdAtField.None? || !Truthy(createdAtField.value) || !createdAtField.value.JString? then
              Failure("Missing or invalid created_at field in issue data")
            else
              var createdAt := createdAtField.value.s;
              match parseDate(createdAt)
              case None => Failure("Invalid date format: " + createdAt)
              case Some(created) =>
                var daysSince := DaysBetween(created, now);
                if daysSince < 0 then Failure("Calculated days is negative (future date)")
                else Success(daysSince)
  }

  /** `getDaysSinceIssueCreation()` at instant `now`: never negative, never throws. */
  function GetDaysSinceIssueCreation(outcome: Outcome, parseDate: string -> Option<int>, now: int): (d: int)
    ensures d >= 0
  {
    match ResolveDaysSinceCreation(outcome, parseDate, now)
    case Success(days) => days
    case Failure(_) => FallbackDays(now)
  }

  /** The issue record was delivered intact and its `created_at` names the instant `created`. */
  ghost predicate DeliversCreation(outcome: Outcome, parseDate: string -> Option<int>, created: int) {
    && outcome.Received? && Ok(outcome.response)
    && outcome.response.body.Decoded? && outcome.response.body.json.JObject?
    && "created_at" in outcome.response.body.json.fields
    && var field := outcome.response.body.json.fields["created_at"];
    && field.JString? && field.s != "" && parseDate(field.s) == Some(created)
  }

  /** A delivered creation instant not in the future gives the whole days elapsed since it. */
  lemma DaysFromDeliveredCreation(outcome: Outcome, parseDate: string -> Option<int>, now: int, created: int)
    requires DeliversCreation(outcome, parseDate, created) && created <= now
    ensures var d := GetDaysSinceIssueCreation(outcome, parseDate, now);
      d == DaysBetween(created, now) && d * MsPerDay <= now - created < (d + 1) * MsPerDay
  {
    var field := outcome.response.body.json.fields["created_at"];
    assert Property(outcome.response.body.json, "created_at") == Some(field);
    assert ResolveDaysSinceCreation(outcome, parseDate, now) == Success(DaysBetween(created, now));
  }

  /**
   * Any other input (a failed fetch, a bad body, a missing, empty, non-string or
   * unparseable `created_at`, or a future one) gives the fallback count.
   */
  lemma DaysFallBack(outcome: Outcome, parseDate: string -> Option<int>, now: int)
    requires forall created :: DeliversCreation(outcome, parseDate, created) ==> now < created
    ensures GetDaysSinceIssueCreation(outcome, parseDate, now) == FallbackDays(now)
  {
    match ResolveDaysSinceCreation(outcome, parseDate, now)
    case Success(days) =>
      var field := outcome.response.body.json.fields["created_at"];
      assert DeliversCreation(outcome, parseDate, parseDate(field.s).value);
    case Failure(_) =>
  }
}
