/**
 * The home route's earlier loader: the same manifest read and version parse as
 * `Api.GetOpenNextVersion`, but with no status check, no object check, no empty or
 * NaN guard and no `catch`, so its failures escape to the router.
 */
module IndexRoute {
  import opened Wrappers
  import opened Ecma
  import opened Fetch
  import opened Types
  import opened Schemas
  import Api

  /** The route's own threshold (Next.js 16 and above). */
  const TargetVersion: int := 16

  /** What the loader's promise settles to: the record, or the message it rejects with. */
  datatype LoaderOutcome = Returned(info: VersionInfo) | Thrown(message: string)

  /**
   * `getOpenNextVersion()` of the route, given what `fetch` and `response.json()`
   * produced and the message zod reports on a mismatch. It returns exactly when
   * the body decodes to something the schema accepts, whatever the HTTP status;
   * the record never has an error, and its verdict is `versionNumber >= 16`, which
   * is false when the major is NaN.
   */
  function LoadOpenNextVersion(outcome: Outcome, schemaMessage: string): (r: LoaderOutcome)
    ensures r.Returned? <==>
      outcome.Received? && outcome.response.body.Decoded? && IsPackageJson(outcome.response.body.json)
    ensures r.Returned? ==>
      && PackageJsonNext(outcome.response.body.json) == Some(r.info.version)
      && r.info.error.None?
      && r.info.versionNumber == Api.MajorVersion(r.info.version)
      && (r.info.isOpenNext16Yet <==> r.info.versionNumber.Int? && r.info.versionNumber.value >= TargetVersion)
  {
    match outcome
    case NetworkError(message) => Thrown(message)
    case Received(response) =>
      match response.body
      case Undecodable(message) => Thrown(message)
      case Decoded(data) =>
        match PackageJsonNext(data)
        case None => Thrown(schemaMessage)
        case Some(version) =>
          var versionNumber := Api.MajorVersion(version);
          Returned(VersionInfo(AtLeast(versionNumber, TargetVersion), versionNumber, version, None))
  }

  /** A schema mismatch escapes as the schema's error instead of becoming a fallback record. */
  lemma SchemaFailureEscapes(response: Response, schemaMessage: string)
    requires response.body.Decoded? && !IsPackageJson(response.body.json)
    ensures LoadOpenNextVersion(Received(response), schemaMessage) == Thrown(schemaMessage)
    ensures Api.GetOpenNextVersion(Received(response), schemaMessage).error.Some?
  {
  }

  /** The loader ignores the HTTP status: only the body matters. */
  lemma StatusIgnored(a: Response, b: Response, schemaMessage: string)
    requires a.body == b.body
    ensures LoadOpenNextVersion(Received(a), schemaMessage) == LoadOpenNextVersion(Received(b), schemaMessage)
  {
  }

  /** With no NaN guard, an unparseable major is returned as NaN with the answer no. */
  lemma UnparseableMajorReturned(status: nat, statusText: string, version: string, schemaMessage: string)
    requires Unsigned(BeforeFirstDot(version)) == [] || !IsDecimalDigit(Unsigned(BeforeFirstDot(version))[0])
    ensures LoadOpenNextVersion(Received(Response(status, statusText, Decoded(Manifest(version)))), schemaMessage)
      == Returned(VersionInfo(false, NaN, version, None))
  {
    PackageJsonNextOfManifest(version, map[], map[]);
    assert Api.MajorVersion(version) == NaN;
  }

  /** Whenever the guarded resolver succeeds, this loader returns the very same record. */
  lemma GuardedSuccessAgrees(outcome: Outcome, schemaMessage: string)
    requires Api.GetOpenNextVersion(outcome, schemaMessage).error.None?
    ensures LoadOpenNextVersion(outcome, schemaMessage) == Returned(Api.GetOpenNextVersion(outcome, schemaMessage))
  {
  }

  /**
   * Conversely, for an ok response, a non-empty version and a numeric major, the
   * guarded resolver returns what this loader returns.
   */
  lemma LoaderAgreesWhenGuarded(response: Response, schemaMessage: string, info: VersionInfo)
    requires Ok(response)
    requires LoadOpenNextVersion(Received(response), schemaMessage) == Returned(info)
    requires info.version != "" && info.versionNumber.Int?
    ensures Api.GetOpenNextVersion(Received(response), schemaMessage) == info
  {
  }

  lemma EmptyVersionHasNoMajor()
    ensures Api.MajorVersion("") == NaN
  {
    assert TrimStart("") == "";
  }

  /**
   * Where the two differ on an ok response, the loader returned a record the
   * guarded resolver rejects: the version is empty or its major is NaN, and the
   * loader's answer is no, like the fallback's.
   */
  lemma DivergenceIsUnguardedNaN(response: Response, schemaMessage: string, info: VersionInfo)
    requires Ok(response)
    requires LoadOpenNextVersion(Received(response), schemaMessage) == Returned(info)
    requires Api.GetOpenNextVersion(Received(response), schemaMessage) != info
    ensures info.versionNumber.NaN? && !info.isOpenNext16Yet
    ensures Api.GetOpenNextVersion(Received(response), schemaMessage).error.Some?
  {
    if info.version == "" {
      EmptyVersionHasNoMajor();
    } else if info.versionNumber.Int? {
      LoaderAgreesWhenGuarded(response, schemaMessage, info);
    }
  }
}
