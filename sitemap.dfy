/**
 * The build-time sitemap generator: the four static pages and one URL per
 * markdown post, each as a `<url>` entry of an XML sitemap.
 *
 * `siteUrlEnv` is `NEXT_PUBLIC_SITE_URL`; `postsDir` is the listing of the posts
 * directory, `None` when it does not exist; `today` is the date part of the
 * current ISO timestamp. Creating `public/` and writing the file are left out.
 */
module Sitemap {
  import opened Wrappers
  import opened JsString
  import opened Seqs
  import Posts

  const DefaultDomain := "https://your-name.com"
  const StaticPages := ["", "about", "posts", "social"]
  const DefaultPriority := "0.7"
  const HomePagePriority := "1.0"
  const ChangeFrequency := "weekly"

  /** `process.env.NEXT_PUBLIC_SITE_URL || "https://your-name.com"`. */
  function Domain(siteUrlEnv: Option<string>): string {
    if Truthy(siteUrlEnv) then siteUrlEnv.value else DefaultDomain
  }

  /** The domain without one trailing slash. */
  function BaseUrl(domain: string): (base: string)
    ensures EndsWith(domain, "/") ==> base + "/" == domain
    ensures !EndsWith(domain, "/") ==> base == domain
  {
    StripSuffix(domain, "/")
  }

  function StaticUrl(base: string, page: string): string {
    if page == "" then base else base + "/" + page
  }

  /** The home page is the bare base URL; the others hang below it. */
  function StaticUrls(base: string): (urls: seq<string>)
    ensures |urls| == |StaticPages| == 4
    ensures urls[0] == base
    ensures forall i :: 1 <= i < 4 ==> urls[i] == base + "/" + StaticPages[i] && StaticPages[i] != ""
  {
    seq(|StaticPages|, i requires 0 <= i < |StaticPages| => StaticUrl(base, StaticPages[i]))
  }

  /** One URL per `.md` file, at `/posts/<slug>`; none when the directory is missing. */
  function PostUrls(base: string, postsDir: Option<seq<string>>): (urls: seq<string>)
    ensures postsDir.None? ==> urls == []
    ensures postsDir.Some? ==>
              var postFiles := Filter(postsDir.value, Posts.IsMarkdown);
              && |urls| == |postFiles|
              && forall i :: 0 <= i < |urls| ==> urls[i] == base + "/posts/" + Posts.PostId(postFiles[i])
  {
    if postsDir.None? then []
    else
      var postFiles := Filter(postsDir.value, Posts.IsMarkdown);
      seq(|postFiles|, i requires 0 <= i < |postFiles| => base + "/posts/" + Posts.PostId(postFiles[i]))
  }

  /** Each post URL names a markdown file of the directory, and distinct files give distinct URLs. */
  lemma PostUrlsNameFiles(base: string, files: seq<string>)
    ensures forall u :: u in PostUrls(base, Some(files)) ==>
              exists slug :: u == base + "/posts/" + slug && slug + ".md" in files
    ensures NoDuplicates(files) ==> NoDuplicates(PostUrls(base, Some(files)))
  {
    var urls := PostUrls(base, Some(files));
    var postFiles := Filter(files, Posts.IsMarkdown);
    forall u | u in urls ensures exists slug :: u == base + "/posts/" + slug && slug + ".md" in files {
      var i :| 0 <= i < |urls| && urls[i] == u;
      assert postFiles[i] in postFiles;
      assert Posts.PostId(postFiles[i]) + ".md" == postFiles[i];
    }
    if NoDuplicates(files) {
      FilterNoDuplicates(files, Posts.IsMarkdown);
      forall i, j | 0 <= i < j < |urls| ensures urls[i] != urls[j] {
        Posts.PostIdInjective(postFiles[i], postFiles[j]);
        var prefix := base + "/posts/";
        assert urls[i][|prefix|..] == Posts.PostId(postFiles[i]);
        assert urls[j][|prefix|..] == Posts.PostId(postFiles[j]);
      }
    }
  }

  /** `[...staticUrls, ...postUrls]`. */
  function AllUrls(base: string, postsDir: Option<seq<string>>): seq<string> {
    StaticUrls(base) + PostUrls(base, postsDir)
  }

  /** Every URL but the first extends the base URL by a slash and a non-empty path. */
  lemma AllUrlsBelowBase(base: string, postsDir: Option<seq<string>>, i: nat)
    requires 1 <= i < |AllUrls(base, postsDir)|
    ensures |AllUrls(base, postsDir)[i]| > |base| + 1
    ensures AllUrls(base, postsDir)[i][..|base| + 1] == base + "/"
  {
    var statics := StaticUrls(base);
    var posts := PostUrls(base, postsDir);
    assert AllUrls(base, postsDir) == statics + posts;
    if i < 4 {
      assert AllUrls(base, postsDir)[i] == statics[i] == base + "/" + StaticPages[i];
      SlashExtends(base, StaticPages[i]);
    } else {
      assert AllUrls(base, postsDir)[i] == posts[i - 4];
      PostUrlBelowBase(base, postsDir, i - 4);
      SlashExtends(base, "posts/" + Posts.PostId(Filter(postsDir.value, Posts.IsMarkdown)[i - 4]));
    }
  }

  lemma PostUrlBelowBase(base: string, postsDir: Option<seq<string>>, j: nat)
    requires j < |PostUrls(base, postsDir)|
    ensures PostUrls(base, postsDir)[j] == base + "/" + ("posts/" + Posts.PostId(Filter(postsDir.value, Posts.IsMarkdown)[j]))
  {
    var slug := Posts.PostId(Filter(postsDir.value, Posts.IsMarkdown)[j]);
    assert PostUrls(base, postsDir)[j] == base + "/posts/" + slug;
    PathAssoc(base, slug);
  }

  lemma PathAssoc(base: string, slug: string)
    ensures base + "/posts/" + slug == base + "/" + ("posts/" + slug)
  {
    assert "/posts/" == "/" + "posts/";
  }

  lemma SlashExtends(base: string, rest: string)
    requires rest != ""
    ensures |base + "/" + rest| > |base| + 1
    ensures (base + "/" + rest)[..|base| + 1] == base + "/"
  {
  }

  datatype UrlEntry = UrlEntry(loc: string, lastmod: string, changefreq: string, priority: string)

  /** The `<url>` entries, the home priority going to the URL equal to `home`. */
  function Entries(urls: seq<string>, today: string, home: string): (entries: seq<UrlEntry>)
    ensures |entries| == |urls|
    ensures forall i :: 0 <= i < |urls| ==>
              && entries[i].loc == urls[i] && entries[i].lastmod == today && entries[i].changefreq == ChangeFrequency
              && (entries[i].priority == HomePagePriority <==> urls[i] == home)
              && (entries[i].priority != HomePagePriority ==> entries[i].priority == DefaultPriority)
  {
    seq(|urls|, i requires 0 <= i < |urls| =>
      UrlEntry(urls[i], today, ChangeFrequency, if urls[i] == home then HomePagePriority else DefaultPriority))
  }

  /** The entries as the generator writes them: the home priority goes to the URL equal
      to the configured domain, trailing slash and all. */
  function EntriesAsWritten(siteUrlEnv: Option<string>, postsDir: Option<seq<string>>, today: string): (entries: seq<UrlEntry>)
    ensures var urls := AllUrls(BaseUrl(Domain(siteUrlEnv)), postsDir);
            && |entries| == |urls|
            && forall i :: 0 <= i < |urls| ==>
                 && entries[i].loc == urls[i] && entries[i].changefreq == ChangeFrequency
                 && (entries[i].priority == HomePagePriority <==> urls[i] == Domain(siteUrlEnv))
  {
    var domain := Domain(siteUrlEnv);
    Entries(AllUrls(BaseUrl(domain), postsDir), today, domain)
  }

  /** With a configured domain ending in `/`, no page gets the home priority. */
  lemma TrailingSlashLosesHomePriority(siteUrlEnv: Option<string>, postsDir: Option<seq<string>>, today: string)
    requires EndsWith(Domain(siteUrlEnv), "/")
    ensures forall e :: e in EntriesAsWritten(siteUrlEnv, postsDir, today) ==> e.priority == DefaultPriority
  {
    var domain := Domain(siteUrlEnv);
    var base := BaseUrl(domain);
    var urls := AllUrls(base, postsDir);
    forall i | 0 <= i < |urls| ensures urls[i] != domain {
      if i == 0 {
        assert |urls[0]| < |domain|;
      } else {
        AllUrlsBelowBase(base, postsDir, i);
      }
    }
  }

  /** For instance: with `NEXT_PUBLIC_SITE_URL=https://example.com/` the home page is written with priority 0.7. */
  lemma HomePageDemotedExample(postsDir: Option<seq<string>>, today: string)
    ensures EntriesAsWritten(Some("https://example.com/"), postsDir, today)[0]
            == UrlEntry("https://example.com", today, "weekly", "0.7")
  {
    assert EndsWith("https://example.com/", "/");
    assert BaseUrl("https://example.com/") == "https://example.com";
  }

  /** The entries with the home priority given to the home page URL itself. */
  function SitemapEntries(siteUrlEnv: Option<string>, postsDir: Option<seq<string>>, today: string): seq<UrlEntry> {
    var base := BaseUrl(Domain(siteUrlEnv));
    Entries(AllUrls(base, postsDir), today, base)
  }

  /** Exactly the home page has the home priority, whatever the configured domain. */
  lemma HomePageAloneOnTop(siteUrlEnv: Option<string>, postsDir: Option<seq<string>>, today: string)
    ensures var entries := SitemapEntries(siteUrlEnv, postsDir, today);
            && |entries| == 4 + (if postsDir.Some? then |Filter(postsDir.value, Posts.IsMarkdown)| else 0)
            && forall i :: 0 <= i < |entries| ==> (entries[i].priority == HomePagePriority <==> i == 0)
  {
    var base := BaseUrl(Domain(siteUrlEnv));
    var urls := AllUrls(base, postsDir);
    forall i | 1 <= i < |urls| ensures urls[i] != base {
      AllUrlsBelowBase(base, postsDir, i);
    }
  }

  /** Without a trailing slash the generator already behaves as intended. */
  lemma NoTrailingSlashAgrees(siteUrlEnv: Option<string>, postsDir: Option<seq<string>>, today: string)
    requires !EndsWith(Domain(siteUrlEnv), "/")
    ensures EntriesAsWritten(siteUrlEnv, postsDir, today) == SitemapEntries(siteUrlEnv, postsDir, today)
  {
  }

  // --- XML

  const Header := "<?xml version=\"1.0\" encoding=\"UTF-8\"?>\n"
    + "<urlset xmlns=\"http://www.sitemaps.org/schemas/sitemap/0.9\" \n"
    + "        xmlns:xsi=\"http://www.w3.org/2001/XMLSchema-instance\"\n"
    + "        xsi:schemaLocation=\"http://www.sitemaps.org/schemas/sitemap/0.9 http://www.sitemaps.org/schemas/sitemap/0.9/sitemap.xsd\">\n"
    + "  "
  const Footer := "\n</urlset>"

  function UrlElement(e: UrlEntry): string {
    UrlLead + LocElement(e.loc) + UrlTail(e)
  }

  const UrlLead := "\n  <url>\n    "

  function LocElement(url: string): string {
    "<loc>" + url + "</loc>"
  }

  function UrlTail(e: UrlEntry): string {
    "\n    <lastmod>" + e.lastmod + "</lastmod>\n    <changefreq>" + e.changefreq
    + "</changefreq>\n    <priority>" + e.priority + "</priority>\n  </url>"
  }

  function Elements(entries: seq<UrlEntry>): (parts: seq<string>)
    ensures |parts| == |entries| && forall i :: 0 <= i < |entries| ==> parts[i] == UrlElement(entries[i])
  {
    seq(|entries|, i requires 0 <= i < |entries| => UrlElement(entries[i]))
  }

  /** The text of `sitemap.xml`: the header, one `<url>` element per entry, the footer. */
  function SitemapXml(entries: seq<UrlEntry>): (xml: string)
    ensures |xml| >= |Header| + |Footer|
    ensures xml[..|Header|] == Header && xml[|xml| - |Footer|..] == Footer
    ensures forall i :: 0 <= i < |entries| ==> Contains(xml, LocElement(entries[i].loc))
  {
    var xml := Header + Concat(Elements(entries)) + Footer;
    LocsListed(entries);
    assert xml[..|Header|] == Header;
    assert xml[|xml| - |Footer|..] == Footer;
    xml
  }

  lemma LocsListed(entries: seq<UrlEntry>)
    ensures forall i :: 0 <= i < |entries| ==> Contains(Header + Concat(Elements(entries)) + Footer, LocElement(entries[i].loc))
  {
    forall i | 0 <= i < |entries|
      ensures Contains(Header + Concat(Elements(entries)) + Footer, LocElement(entries[i].loc))
    {
      var loc := LocElement(entries[i].loc);
      OccursInside(UrlLead, loc, UrlTail(entries[i]), loc, 0);
      ConcatContains(Elements(entries), i, loc, |UrlLead|);
      var body := Concat(Elements(entries));
      var k :| OccursAt(body, loc, k);
      OccursInside(Header, body, Footer, loc, k);
    }
  }

  /** Every URL of the site appears in the sitemap as a `<loc>` element, both as the
      generator writes the entries and with the corrected home priority. */
  lemma SitemapListsEveryUrl(siteUrlEnv: Option<string>, postsDir: Option<seq<string>>, today: string, i: nat)
    requires i < |AllUrls(BaseUrl(Domain(siteUrlEnv)), postsDir)|
    ensures Contains(SitemapXml(EntriesAsWritten(siteUrlEnv, postsDir, today)),
                     LocElement(AllUrls(BaseUrl(Domain(siteUrlEnv)), postsDir)[i]))
    ensures Contains(SitemapXml(SitemapEntries(siteUrlEnv, postsDir, today)),
                     LocElement(AllUrls(BaseUrl(Domain(siteUrlEnv)), postsDir)[i]))
  {
    var written := EntriesAsWritten(siteUrlEnv, postsDir, today);
    var corrected := SitemapEntries(siteUrlEnv, postsDir, today);
    assert written[i].loc == corrected[i].loc == AllUrls(BaseUrl(Domain(siteUrlEnv)), postsDir)[i];
  }
}
