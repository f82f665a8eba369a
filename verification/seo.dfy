/**
 * `generateHomePageMeta`: the home page's meta tags and canonical link, built from
 * the loader's record (or a default record when there is none).
 */
module Seo {
  import opened Wrappers
  import opened Ecma
  import opened Constants
  import opened Types

  /** One entry of `meta`: `{ title }`, `{ name, content }` or `{ property, content }`. */
  datatype MetaTag =
    | Title(title: string)
    | Named(name: string, content: string)
    | Property(property: string, content: string)

  datatype Link = Link(rel: string, href: string)

  datatype HeadMeta = HeadMeta(meta: seq<MetaTag>, links: seq<Link>)

  /** The three fields of the loader's record that the tags are built from. */
  datatype PageFacts = PageFacts(isOpenNext16Yet: bool, version: string, daysSinceIssueCreation: int)

  /** The fields of the default record used when there is no loader data. */
  const DefaultFacts: PageFacts := PageFacts(false, "15.x.x", 0)

  /** `data ?? fallbackData`, destructured. */
  function FactsOf(data: Option<LoaderData>): PageFacts {
    match data
    case None => DefaultFacts
    case Some(d) => PageFacts(d.versionInfo.isOpenNext16Yet, d.versionInfo.version, d.issueDates.daysSinceIssueCreation)
  }

  /** What a tag is keyed by: "title", its name or its property. */
  function Key(tag: MetaTag): string {
    match tag
    case Title(_) => "title"
    case Named(name, _) => name
    case Property(property, _) => property
  }

  /** A tag's text: the title itself or its content. */
  function Content(tag: MetaTag): string {
    match tag
    case Title(title) => title
    case Named(_, content) => content
    case Property(_, content) => content
  }

  /** The answer to the page's question. */
  function Status(isOpenNext16Yet: bool): (s: string)
    ensures s == "YES" <==> isOpenNext16Yet
    ensures s == "NO" <==> !isOpenNext16Yet
  {
    if isOpenNext16Yet then "YES" else "NO"
  }

  const TitlePrefix: string := "Is OpenNextJS Cloudflare Using Next.js 16? "

  const YesPrefix: string := "OpenNextJS Cloudflare is now using Next.js "
  const YesSuffix: string := "! \U{1F389}"
  const NoPrefix: string := "OpenNextJS Cloudflare is still NOT using Next.js 16. It's been "
  // The leading space is kept apart so that the first character is visible to proofs.
  const NoMiddle: string := " " + "days since the issue was created. Currently using Next.js "

  function Description(facts: PageFacts): string {
    if facts.isOpenNext16Yet then YesPrefix + facts.version + YesSuffix
    else NoPrefix + IntToString(facts.daysSinceIssueCreation) + NoMiddle + facts.version + "."
  }

  const OgImage: string := BaseUrl + "/og-image.png"

  /** The tags for one set of facts, in the order the page declares them. */
  function Render(facts: PageFacts): HeadMeta {
    var status := Status(facts.isOpenNext16Yet);
    var title := TitlePrefix + status;
    var description := Description(facts);
    HeadMeta(
      [ Title(title),
        Named("description", description),
        Named("keywords", "OpenNextJS, Cloudflare, Next.js 16, Next.js, React, Cloudflare Workers, deployment"),
        Named("author", SiteName),
        Named("robots", "index, follow"),
        Property("og:title", title),
        Property("og:description", description),
        Property("og:type", "website"),
        Property("og:url", BaseUrl),
        Property("og:site_name", SiteName),
        Property("og:locale", "en_US"),
        Property("og:image", OgImage),
        Property("og:image:width", "1200"),
        Property("og:image:height", "630"),
        Property("og:image:alt", "OpenNextJS Cloudflare Next.js 16 Status: " + status),
        Named("twitter:card", "summary_large_image"),
        Named("twitter:title", title),
        Named("twitter:description", description),
        Named("twitter:image", OgImage),
        Named("twitter:url", BaseUrl),
        Named("twitter:site", TwitterHandle),
        Named("twitter:creator", TwitterHandle) ],
      [ Link("canonical", BaseUrl) ])
  }

  /**
   * `generateHomePageMeta(data)`: 22 tags and one canonical link. The three titles
   * agree, the three descriptions agree, both page URLs and the canonical link are
   * the site's base URL, both images are its preview image.
   */
  function GenerateHomePageMeta(data: Option<LoaderData>): (r: HeadMeta)
    ensures |r.meta| == 22 && |r.links| == 1
    ensures Key(r.meta[0]) == "title" && Key(r.meta[5]) == "og:title" && Key(r.meta[16]) == "twitter:title"
    ensures Content(r.meta[0]) == Content(r.meta[5]) == Content(r.meta[16])
    ensures Key(r.meta[1]) == "description" && Key(r.meta[6]) == "og:description"
      && Key(r.meta[17]) == "twitter:description"
    ensures Content(r.meta[1]) == Content(r.meta[6]) == Content(r.meta[17])
    ensures Key(r.meta[8]) == "og:url" && Key(r.meta[19]) == "twitter:url" && r.links[0].rel == "canonical"
    ensures Content(r.meta[8]) == Content(r.meta[19]) == r.links[0].href == BaseUrl
    ensures Key(r.meta[11]) == "og:image" && Key(r.meta[18]) == "twitter:image"
    ensures Content(r.meta[11]) == Content(r.meta[18]) == BaseUrl + "/og-image.png"
  {
    Render(FactsOf(data))
  }

  /** The title ends in the answer, "YES" exactly when the version is the target one. */
  lemma TitleAnswers(data: Option<LoaderData>)
    ensures var title := Content(GenerateHomePageMeta(data).meta[0]);
      && title == TitlePrefix + Status(FactsOf(data).isOpenNext16Yet)
      && (title[|title| - 3..] == "YES" <==> FactsOf(data).isOpenNext16Yet)
  {
    var title := Content(GenerateHomePageMeta(data).meta[0]);
    if FactsOf(data).isOpenNext16Yet {
      assert title[|title| - 3..] == "YES";
    } else {
      assert title[|title| - 3..][0] == ' ';
    }
  }

  /** The description announces the version when it is the target, and counts the days when not. */
  lemma DescriptionChoice(data: Option<LoaderData>)
    ensures var description := Content(GenerateHomePageMeta(data).meta[1]);
      var facts := FactsOf(data);
      && (facts.isOpenNext16Yet ==> description == YesPrefix + facts.version + YesSuffix)
      && (!facts.isOpenNext16Yet ==>
            description == NoPrefix + IntToString(facts.daysSinceIssueCreation) + NoMiddle + facts.version + ".")
  {
  }

  /** Without loader data the tags are those of the default record. */
  lemma DefaultRecord(d: LoaderData)
    requires !d.versionInfo.isOpenNext16Yet && d.versionInfo.version == "15.x.x"
    requires d.issueDates.daysSinceIssueCreation == 0
    ensures GenerateHomePageMeta(None) == GenerateHomePageMeta(Some(d))
  {
  }

  /** The keys of the 22 tags, in the order the page declares them. */
  const TagKeys: seq<string> := [
    "title", "description", "keywords", "author", "robots",
    "og:title", "og:description", "og:type", "og:url", "og:site_name", "og:locale",
    "og:image", "og:image:width", "og:image:height", "og:image:alt",
    "twitter:card", "twitter:title", "twitter:description", "twitter:image", "twitter:url",
    "twitter:site", "twitter:creator"]

  lemma RenderKeys(facts: PageFacts)
    ensures |Render(facts).meta| == |TagKeys|
    ensures forall i :: 0 <= i < |TagKeys| ==> Key(Render(facts).meta[i]) == TagKeys[i]
  {
    assert |Render(facts).meta| == 22;
  }

  /** Whatever the input, the tags carry the same keys in the same order, and the same link. */
  lemma FixedKeys(data: Option<LoaderData>)
    ensures |GenerateHomePageMeta(data).meta| == |TagKeys|
    ensures forall i :: 0 <= i < |TagKeys| ==> Key(GenerateHomePageMeta(data).meta[i]) == TagKeys[i]
    ensures GenerateHomePageMeta(data).links == [Link("canonical", BaseUrl)]
  {
    RenderKeys(FactsOf(data));
  }

  lemma DaysTailStartsWithSpace(version: string)
    ensures (NoMiddle + version + ".")[0] == ' '
  {
    assert (NoMiddle + version + ".")[0] == NoMiddle[0];
  }

  lemma StripAffixes(p: string, x: string, y: string, q: string)
    requires p + x + q == p + y + q
    ensures x == y
  {
    var s := p + x + q;
    assert x == s[|p|..|p| + |x|];
    assert y == s[|p|..|p| + |y|];
  }

  /** Equal titles give equal answers. */
  lemma TitleDeterminesAnswer(fa: PageFacts, fb: PageFacts)
    requires Content(Render(fa).meta[0]) == Content(Render(fb).meta[0])
    ensures fa.isOpenNext16Yet == fb.isOpenNext16Yet
  {
    assert |TitlePrefix + Status(fa.isOpenNext16Yet)| == |TitlePrefix + Status(fb.isOpenNext16Yet)|;
  }

  /** For the same answer, equal descriptions give the same version, and when the answer is no, the same day count. */
  lemma DescriptionDeterminesFacts(fa: PageFacts, fb: PageFacts)
    requires fa.isOpenNext16Yet == fb.isOpenNext16Yet
    requires Description(fa) == Description(fb)
    ensures fa.version == fb.version
    ensures !fa.isOpenNext16Yet ==> fa.daysSinceIssueCreation == fb.daysSinceIssueCreation
  {
    if fa.isOpenNext16Yet {
      StripAffixes(YesPrefix, fa.version, fb.version, YesSuffix);
    } else {
      NoDescriptionDeterminesFacts(fa.daysSinceIssueCreation, fa.version, fb.daysSinceIssueCreation, fb.version);
    }
  }

  lemma NoDescriptionDeterminesFacts(da: int, va: string, db: int, vb: string)
    requires NoPrefix + IntToString(da) + NoMiddle + va + "." == NoPrefix + IntToString(db) + NoMiddle + vb + "."
    ensures da == db && va == vb
  {
    var sa, sb := IntToString(da), IntToString(db);
    var ra, rb := NoMiddle + va + ".", NoMiddle + vb + ".";
    Regroup(NoPrefix, sa, NoMiddle, va, ".");
    Regroup(NoPrefix, sb, NoMiddle, vb, ".");
    StripPrefix(NoPrefix, sa + ra, sb + rb);
    DaysTailStartsWithSpace(va);
    DaysTailStartsWithSpace(vb);
    RenderedPrefixUnique(da, ra, db, rb);
    StripAffixes(NoMiddle, va, vb, ".");
  }

  lemma Regroup(p: string, s: string, m: string, v: string, d: string)
    ensures p + s + m + v + d == p + (s + (m + v + d))
  {
  }

  lemma StripPrefix(p: string, x: string, y: string)
    requires p + x == p + y
    ensures x == y
  {
    assert x == (p + x)[|p|..];
  }

  /**
   * The tags depend on exactly three fields of the record: two inputs yield the
   * same tags if and only if they agree on `isOpenNext16Yet`, `version` and
   * `daysSinceIssueCreation` (the last read only when the answer is no).
   */
  lemma TagsDetermineFacts(a: Option<LoaderData>, b: Option<LoaderData>)
    ensures GenerateHomePageMeta(a) == GenerateHomePageMeta(b) <==>
      var fa, fb := FactsOf(a), FactsOf(b);
      fa.isOpenNext16Yet == fb.isOpenNext16Yet && fa.version == fb.version
      && (!fa.isOpenNext16Yet ==> fa.daysSinceIssueCreation == fb.daysSinceIssueCreation)
  {
    var fa, fb := FactsOf(a), FactsOf(b);
    if GenerateHomePageMeta(a) == GenerateHomePageMeta(b) {
      assert Render(fa).meta[0] == Render(fb).meta[0];
      TitleDeterminesAnswer(fa, fb);
      assert Render(fa).meta[1] == Render(fb).meta[1];
      DescriptionDeterminesFacts(fa, fb);
    }
  }
}
