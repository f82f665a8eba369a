/** The records the loaders produce and the page consumes. */
module Types {
  import opened Wrappers
  import opened Ecma

  /** The version verdict; `error` is present only on a fallback. */
  datatype VersionInfo = VersionInfo(
    isOpenNext16Yet: bool,
    versionNumber: Num,
    version: string,
    error: Option<string>)

  /** The issue's day counts; a `number | null` field is an Option. */
  datatype IssueDates = IssueDates(
    daysSinceIssueCreation: int,
    daysSinceIssueUpdate: Option<int>,
    daysSinceIssueClose: Option<int>,
    isClosed: bool)

  /** `LoaderData extends VersionInfo, IssueDates`. */
  datatype LoaderData = LoaderData(versionInfo: VersionInfo, issueDates: IssueDates)
}
