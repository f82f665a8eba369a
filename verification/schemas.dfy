/** `packageJsonSchema`: the shape the manifest must have. */
module Schemas {
  import opened Wrappers
  import opened Fetch

  /** `data` has the shape z.object({ dependencies: z.object({ next: z.string() }) }). */
  predicate IsPackageJson(data: Json) {
    && data.JObject?
    && "dependencies" in data.fields
    && data.fields["dependencies"].JObject?
    && "next" in data.fields["dependencies"].fields
    && data.fields["dependencies"].fields["next"].JString?
  }

  /**
   * `packageJsonSchema.parse(data).dependencies.next`: `data` must be an object
   * (not an array, not null) whose `dependencies` is an object whose `next` is a
   * string; other keys are ignored. None when zod throws.
   */
  function PackageJsonNext(data: Json): (r: Option<string>)
    ensures r.Some? <==> IsPackageJson(data)
    ensures r.Some? ==> data.fields["dependencies"].fields["next"] == JString(r.value)
  {
    match Property(data, "dependencies")
    case Some(dependencies) =>
      (match Property(dependencies, "next")
       case Some(JString(next)) => Some(next)
       case _ => None)
    case None => None
  }

  /** The smallest manifest whose `dependencies.next` is `next`. */
  function Manifest(next: string): Json {
    JObject(map["dependencies" := JObject(map["next" := JString(next)])])
  }

  /** The schema reads back the version of any manifest built around it, whatever other keys it carries. */
  lemma PackageJsonNextOfManifest(next: string, extra: map<string, Json>, extraDeps: map<string, Json>)
    ensures PackageJsonNext(Manifest(next)) == Some(next)
    ensures PackageJsonNext(JObject(extra["dependencies" := JObject(extraDeps["next" := JString(next)])])) == Some(next)
  {
  }
}
