/** The application's configuration constants. */
module Constants {
  /** The Next.js major version the site asks about. */
  const TargetVersion: int := 16

  /** The day the tracked issue was opened, in the date-only ISO form. */
  const FallbackIssueDate: string := "2025-11-04"

  const SiteName: string := "Is Open Next 16 Yet?"

  const TwitterHandle: string := "@opennextjs"

  const BaseUrl: string := "http://localhost:3000"
}
