# Is Open Next 16 Yet? — a Dafny model of the status derivation

The application answers one question: does OpenNextJS Cloudflare already depend on
Next.js 16? It fetches the adapter's `package.json` and the GitHub issue that asks
for Next.js 16. From them it derives a verdict record and a day count, and it renders
the page's meta tags. This project models the code that runs after the fetches:

- `getOpenNextVersion` in `src/lib/api.ts`. It checks the HTTP status, that the body
  is an object, the zod schema, and that `dependencies.next` is non-empty. Then it
  parses the major version with `parseInt(version.split('.')[0], 10)` and compares it
  with `TARGET_VERSION` (16). Any failure becomes one fixed fallback record carrying
  the error's message.
- `getDaysSinceIssueCreation` in `src/lib/api.ts`. It counts whole days since the
  issue's `created_at` and rejects a negative count. On any failure it counts from
  the fixed date `2025-11-04` instead, clamped at 0.
- `generateHomePageMeta` in `src/lib/seo.ts`: 22 meta tags and a canonical link.
- The older, unguarded loader `getOpenNextVersion` in `src/routes/index.tsx`, proved
  to agree with the guarded one wherever the guarded one succeeds.

The network is an input. `Fetch.Outcome` is either the message of a failed `fetch`
or a response: status, reason phrase, and either the decoded JSON value or the
message `response.json()` threw. `response.ok` is derived from the status (200 to
299, as the Fetch standard defines it). The clock is the parameter `now`
(milliseconds). `new Date(s).getTime()` for the issue's timestamp is the parameter
`parseDate` (None for NaN). zod's error text is the parameter `schemaMessage`.

Modules, one per source file or built-in: `Wrappers` (Option, Result), `Ecma`
(`parseInt` per section 19.2.5 of ECMA-262 with radix 10, `${n}` for integers,
`split('.')[0]`, whole-day floor division, and the date-only form of the Date Time
String Format of section 21.4.1.32), `Fetch`, `Constants`, `Types`, `Schemas`,
`Api`, `Seo`, `IndexRoute`.

What the code does, as modelled:
- The day count comes from the fetched `created_at`; the fixed date is only the
  fallback.
- No version-pattern or positive-major check exists; the major is whatever
  `parseInt` reads from the first dot-segment.
- Only the creation count is computed; there is no `updated_at`/`closed_at`
  resolver and no function that merges the two loaders' results.
- The comment at `src/lib/api.ts:102` says 2024. The model uses the constant's
  value, `'2025-11-04'`.

## Model

| member | source | states |
|---|---|---|
| `Ecma.TrimStart` | src/lib/api.ts:37 | the result is a suffix of the input, everything dropped is ECMAScript white space, and the result does not start with white space |
| `Ecma.DigitPrefixLength` | src/lib/api.ts:37 | the length of the longest run of decimal digits at the start of the text |
| `Ecma.ParseInt` | src/lib/api.ts:37 | `parseInt(s, 10)` is NaN exactly when the text after leading white space and one optional sign does not start with a decimal digit |
| `Ecma.ParseIntOfPlusDigits` | src/lib/api.ts:37 | after white space, a `+` sign followed by digits and then a non-digit gives the digits' value, as with no sign |
| `Ecma.ParseIntOfRendered` | src/lib/api.ts:37 | `parseInt` reads back any integer's decimal rendering, whatever white space comes before it and whatever non-digit text follows it |
| `Ecma.ParseIntOfNonNumeral` | src/lib/api.ts:37-41 | text starting with anything other than white space, a sign or a digit parses to NaN |
| `Ecma.NatToString` | src/lib/api.ts:20 | `${n}` for a non-negative integer is a non-empty digit string, with no leading zero unless n is 0, whose value is n |
| `Ecma.IntToString` | src/lib/seo.ts:21 | `${n}` starts with '-' exactly when n is negative; every other character is a digit |
| `Ecma.RenderedPrefixUnique` | src/lib/seo.ts:21 | two renderings followed by non-digit text are equal only when the numbers and the following texts are equal |
| `Ecma.BeforeFirstDot` | src/lib/api.ts:37 | `split('.')[0]` is a dot-free prefix of the version that ends at its first '.' or at its end |
| `Ecma.BeforeFirstDotOf` | src/lib/api.ts:37 | for `<head>.<rest>` with a dot-free head, the first segment is the head |
| `Ecma.DaysBetween` | src/lib/api.ts:91-93 | the floored day count d satisfies d·86400000 ≤ now − created < (d+1)·86400000 |
| `Ecma.ParseDateOnly` | src/lib/api.ts:103 | the UTC-midnight instant of a YYYY-MM-DD string; None for every other string, which the model never passes |
| `Fetch.Ok` | src/lib/api.ts:18 | `response.ok` holds exactly for a status in the 2xx class |
| `Fetch.Truthy` | src/lib/api.ts:26 | the falsy JSON values are exactly null, false, 0 and the empty string; the same test guards `version` (line 33) and `created_at` (line 80) |
| `Fetch.TypeofObject` | src/lib/api.ts:26 | `typeof` gives 'object' exactly for JSON values that are not booleans, numbers or strings (null, arrays, objects); the same test is at line 76 |
| `Fetch.Property` | src/lib/api.ts:80 | a property read yields a value exactly for a key present in a decoded object, and that value is the object's entry |
| `Schemas.PackageJsonNext` | src/lib/schemas.ts:3-7 | zod accepts exactly an object whose `dependencies` is an object whose `next` is a string, and yields that string |
| `Schemas.PackageJsonNextOfManifest` | src/lib/schemas.ts:3-7 | the schema reads back the version of any manifest built around it, whatever other keys it carries |
| `Api.GetOpenNextVersion` | src/lib/api.ts:10-57 | total; a record with an error is the fallback (no, 15, `15.x.x (error loading)`); a record without one came from an ok, decoded, schema-valid manifest, keeps its non-empty version unchanged, has a numeric major parsed from the first segment, and answers yes exactly when that major is at least 16 |
| `Api.NonOkStatusFallsBack` | src/lib/api.ts:18-22 | a non-ok status yields the fallback with `Failed to fetch package.json: <status> <statusText>` |
| `Api.NonObjectBodyFallsBack` | src/lib/api.ts:26-28 | a null or primitive body yields the fallback with `Invalid response: expected JSON object` |
| `Api.EmptyVersionFallsBack` | src/lib/api.ts:30-35 | an empty `dependencies.next` passes the schema but yields the fallback with `Invalid version format in package.json` |
| `Api.UnparseableMajorFallsBack` | src/lib/api.ts:37-41 | a first segment with no leading digits yields the fallback with `Could not parse version number from: <version>` |
| `Api.MajorNaNFallsBack` | src/lib/api.ts:37-41 | a manifest whose major parses to NaN yields that fallback |
| `Api.CaretVersionFallsBack` | src/lib/api.ts:37-41 | the caret range `^16.0.0` yields that fallback |
| `Api.PrefixedVersionFallsBack` | src/lib/api.ts:37-41 | the prefixed version `v16` yields that fallback |
| `Api.MajorVersion` | src/lib/api.ts:37 | `parseInt(version.split('.')[0], 10)` is NaN exactly when the first dot-segment, after white space and one sign, does not start with a digit; `src/routes/index.tsx:21` computes the same value |
| `Api.MajorOfDottedVersion` | src/lib/api.ts:37 | the major of `<n>.<rest>` is n |
| `Api.DottedVersionResolves` | src/lib/api.ts:37-47 | for an ok manifest with version `<n>.<rest>`: that version unchanged, major n, verdict n ≥ 16, no error |
| `Api.TargetVersionExample` | src/lib/api.ts:43-47 | `16.2.0` gives major 16 and yes |
| `Api.PreviousVersionExample` | src/lib/api.ts:43-47 | `15.9.9` gives major 15 and no |
| `Api.FallbackIssueDateInstant` | src/lib/constants.ts:12 | `2025-11-04` is the instant 1762214400000 ms (UTC midnight) |
| `Api.FallbackDays` | src/lib/api.ts:103-108 | the fallback count is never negative: the whole days since 2025-11-04 once that date has passed, 0 before it |
| `Api.GetDaysSinceIssueCreation` | src/lib/api.ts:60-110 | the day count is never negative, on every input |
| `Api.DaysFromDeliveredCreation` | src/lib/api.ts:80-99 | for a delivered, parseable `created_at` that is not in the future, the result is the floored whole days since it |
| `Api.DaysFallBack` | src/lib/api.ts:100-109 | on every other input (failed fetch, bad body, missing, empty, non-string or unparseable `created_at`, future date) the result is the fallback count |
| `Seo.Status` | src/lib/seo.ts:18 | the status is `YES` exactly when the verdict is yes, and `NO` exactly when it is not |
| `Seo.GenerateHomePageMeta` | src/lib/seo.ts:4-125 | 22 tags and one link; the title, og:title and twitter:title agree; the three descriptions agree; og:url, twitter:url and the canonical href are the base URL; og:image and twitter:image are its `/og-image.png` |
| `Seo.TitleAnswers` | src/lib/seo.ts:18-29 | the title ends in the status, and ends in `YES` exactly when the verdict is yes |
| `Seo.DescriptionChoice` | src/lib/seo.ts:19-21 | the description announces the version on yes; on no it gives the day count and the version |
| `Seo.DefaultRecord` | src/lib/seo.ts:5-16 | without loader data the tags are those of any record with no, `15.x.x` and 0 days |
| `Seo.RenderKeys` | src/lib/seo.ts:26-117 | the tags carry the 22 keys in the declared order for any facts |
| `Seo.FixedKeys` | src/lib/seo.ts:26-124 | for every input: the same 22 keys in the same order, and the one canonical link to the base URL |
| `Seo.TitleDeterminesAnswer` | src/lib/seo.ts:28 | equal titles mean equal verdicts |
| `Seo.DescriptionDeterminesFacts` | src/lib/seo.ts:19-21 | for the same verdict, equal descriptions mean the same version, and on no the same day count |
| `Seo.NoDescriptionDeterminesFacts` | src/lib/seo.ts:21 | equal "still NOT using" descriptions mean the same day count and version |
| `Seo.TagsDetermineFacts` | src/lib/seo.ts:12-21 | two inputs give the same tags exactly when they agree on the verdict and the version, and on no also on the day count |
| `IndexRoute.LoadOpenNextVersion` | src/routes/index.tsx:16-28 | returns exactly when the body decodes to a schema-valid manifest, whatever the status; the record has no error, keeps the version, has the major of its first segment, and answers yes exactly when that major is a number at least 16 |
| `IndexRoute.SchemaFailureEscapes` | src/routes/index.tsx:17-19 | a schema mismatch escapes as zod's error, where the guarded resolver returns a fallback |
| `IndexRoute.StatusIgnored` | src/routes/index.tsx:17-18 | responses with the same body give the same result, whatever their status |
| `IndexRoute.UnparseableMajorReturned` | src/routes/index.tsx:21-23 | an unparseable major is returned as NaN with the answer no |
| `IndexRoute.EmptyVersionHasNoMajor` | src/routes/index.tsx:21 | the major of an empty version is NaN |
| `IndexRoute.GuardedSuccessAgrees` | src/routes/index.tsx:20-26 | whenever the guarded resolver succeeds, this loader returns the same record |
| `IndexRoute.LoaderAgreesWhenGuarded` | src/routes/index.tsx:20-26 | for an ok response with a non-empty version and a numeric major, the guarded resolver returns what this loader returns |
| `IndexRoute.DivergenceIsUnguardedNaN` | src/routes/index.tsx:21-23 | where the two differ on an ok response, the loader returned a NaN major with the answer no, and the guarded resolver a fallback |

## Left out

- `fetch`, the request URLs and headers, `response.json()` and the wall clock are inputs (`Fetch.Outcome`, `now`). A hung request is not modelled.
- The clock is read once: `src/lib/api.ts:90` and the `catch` at `src/lib/api.ts:104` each call `new Date()`, and the model gives both the same instant `now`.
- `console.error` logging (`src/lib/api.ts:49`, `src/lib/api.ts:101`) is not modelled.
- zod's error message text: the model takes it as the parameter `schemaMessage`.
- `new Date(created_at)` for arbitrary strings is the parameter `parseDate`. Only the date-only form of the fixed fallback date is parsed in the model.
- Ecma.ParseDateOnly: its own contract states only that a date requires the YYYY-MM-DD form. Only the instant of the one date the application parses is stated independently of its body, by `Api.FallbackIssueDateInstant`. A day number beyond the month's length is not rejected; ECMA-262 leaves such strings to the engine, and the model never passes one.
- The `'Unknown error'` branch (`src/lib/api.ts:55`) is not modelled, because every failure the model throws is an `Error` with a message.
- Numbers are unbounded integers. Three consequences: `parseInt` of a digit run above 2^53 is exact here, where JavaScript rounds it; `parseInt("-0")` gives 0, not -0; and `${n}` is never in exponent form.
- `LoaderData` is a pair of `VersionInfo` and `IssueDates`, not a flat merge of their keys.
- `daysSinceIssueUpdate`, `daysSinceIssueClose` and `isClosed` (`src/lib/types.ts:10-12`) are declared but not computed. No code in the modelled files computes them or merges results into `LoaderData`.
- The UI is not modelled: the `App` component, `src/routes/about.tsx` and `src/routes/__root.tsx`.
