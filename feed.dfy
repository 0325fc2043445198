/**
 * `GET /feed`: an RSS 2.0 document with one `<item>` per post of the sorted listing.
 *
 * `siteUrlEnv` is `SITE_URL`; `utcString` stands for `new Date(date).toUTCString()`.
 * Titles and excerpts are interpolated as they are, without XML escaping.
 */
module Feed {
  import opened Wrappers
  import opened JsString
  import opened Seqs
  import Posts

  const DefaultSiteUrl := "http://localhost:3000"

  /** `process.env.SITE_URL || 'http://localhost:3000'`. */
  function SiteUrl(siteUrlEnv: Option<string>): string {
    if Truthy(siteUrlEnv) then siteUrlEnv.value else DefaultSiteUrl
  }

  /** `${siteUrl}/posts/${id}`: both the link and the guid of an item. */
  function Permalink(siteUrl: string, id: string): (url: string)
    ensures |url| == |siteUrl| + 7 + |id|
    ensures url[..|siteUrl| + 7] == siteUrl + "/posts/" && url[|siteUrl| + 7..] == id
  {
    siteUrl + "/posts/" + id
  }

  /** Different posts get different permalinks, and the post can be read back from its link. */
  lemma PermalinkInjective(siteUrl: string, a: string, b: string)
    ensures Permalink(siteUrl, a) == Permalink(siteUrl, b) <==> a == b
  {
    if Permalink(siteUrl, a) == Permalink(siteUrl, b) {
      assert Permalink(siteUrl, a)[|siteUrl| + 7..] == a;
    }
  }

  datatype Item = Item(title: string, description: string, link: string, guid: string, pubDate: string)

  /** The item of one post: `${post.title}` and `${post.excerpt}` print "undefined" when absent. */
  function ItemOf(siteUrl: string, post: Posts.Post, utcString: string -> string): (item: Item)
    ensures item.link == item.guid == Permalink(siteUrl, post.id)
    ensures post.title.Some? ==> item.title == post.title.value
    ensures post.title.None? ==> item.title == "undefined"
    ensures post.excerpt.Some? ==> item.description == post.excerpt.value
    ensures post.excerpt.None? ==> item.description == "undefined"
    ensures item.pubDate == utcString(post.date)
  {
    Item(Interpolate(post.title), Interpolate(post.excerpt), Permalink(siteUrl, post.id),
         Permalink(siteUrl, post.id), utcString(post.date))
  }

  /** The items, one per post, in the order of the listing. */
  function Items(siteUrl: string, posts: seq<Posts.Post>, utcString: string -> string): (items: seq<Item>)
    ensures |items| == |posts|
    ensures forall i :: 0 <= i < |posts| ==> items[i] == ItemOf(siteUrl, posts[i], utcString)
  {
    seq(|posts|, i requires 0 <= i < |posts| => ItemOf(siteUrl, posts[i], utcString))
  }

  /** Posts with distinct ids get distinct guids. */
  lemma GuidsDistinct(siteUrl: string, posts: seq<Posts.Post>, utcString: string -> string)
    requires NoDuplicates(Posts.Ids(posts))
    ensures var items := Items(siteUrl, posts, utcString);
            forall i, j :: 0 <= i < j < |items| ==> items[i].guid != items[j].guid
  {
    var items := Items(siteUrl, posts, utcString);
    forall i, j | 0 <= i < j < |items| ensures items[i].guid != items[j].guid {
      assert Posts.Ids(posts)[i] != Posts.Ids(posts)[j];
      PermalinkInjective(siteUrl, posts[i].id, posts[j].id);
    }
  }

  function ItemXml(item: Item): string {
    ItemLead(item) + ("<link>" + item.link + "</link>") + ItemTail(item)
  }

  function ItemLead(item: Item): string {
    "\n      <item>\n        <title>" + item.title + "</title>\n        <description>" + item.description
    + "</description>\n        "
  }

  function ItemTail(item: Item): string {
    "\n        <guid isPermaLink=\"true\">" + item.guid + "</guid>\n        <pubDate>" + item.pubDate
    + "</pubDate>\n      </item>\n    "
  }

  function ItemsXml(items: seq<Item>): (parts: seq<string>)
    ensures |parts| == |items| && forall i :: 0 <= i < |items| ==> parts[i] == ItemXml(items[i])
  {
    seq(|items|, i requires 0 <= i < |items| => ItemXml(items[i]))
  }

  const Prolog := "<?xml version=\"1.0\" encoding=\"UTF-8\"?>\n<rss version=\"2.0\" xmlns:atom=\"http://www.w3.org/2005/Atom\">\n"
    + "  <channel>\n    <title>Your Tagline</title>\n    <description>\"Join Your Name Here\"</description>\n    "

  function ChannelLink(siteUrl: string): string {
    "<link>" + siteUrl + "</link>"
  }

  function AtomLink(siteUrl: string): string {
    "<atom:link href=\"" + siteUrl + "/feed\" rel=\"self\" type=\"application/rss+xml\" />"
  }

  /** The channel header: the channel links to the site, and the feed to itself at `/feed`. */
  function ChannelHead(siteUrl: string): (head: string)
    ensures OccursAt(head, ChannelLink(siteUrl), |Prolog|)
    ensures OccursAt(head, AtomLink(siteUrl), |Prolog| + |ChannelLink(siteUrl)| + |Indent|)
  {
    TwoPieces(Prolog, ChannelLink(siteUrl), Indent, AtomLink(siteUrl), Indent);
    Prolog + ChannelLink(siteUrl) + (Indent + AtomLink(siteUrl) + Indent)
  }

  const Indent := "\n    "

  /** Where the second and fourth of five pieces sit in their concatenation. */
  lemma TwoPieces(a: string, b: string, c: string, d: string, e: string)
    ensures OccursAt(a + b + (c + d + e), b, |a|)
    ensures OccursAt(a + b + (c + d + e), d, |a| + |b| + |c|)
  {
    var s := a + b + (c + d + e);
    assert s[|a|..|a| + |b|] == b;
    assert s[|a| + |b| + |c|..|a| + |b| + |c| + |d|] == d;
  }

  const ChannelTail := "\n  </channel>\n</rss>"

  /** The body of the response: the channel header, the items, the channel footer. */
  function Rss(siteUrlEnv: Option<string>, posts: seq<Posts.Post>, utcString: string -> string): (rss: string)
    ensures var head := ChannelHead(SiteUrl(siteUrlEnv));
            && |rss| >= |head| + |ChannelTail|
            && rss[..|head|] == head
            && rss[|rss| - |ChannelTail|..] == ChannelTail
  {
    var siteUrl := SiteUrl(siteUrlEnv);
    var head := ChannelHead(siteUrl);
    var rss := head + Concat(ItemsXml(Items(siteUrl, posts, utcString))) + ChannelTail;
    assert rss[..|head|] == head;
    assert rss[|rss| - |ChannelTail|..] == ChannelTail;
    rss
  }

  /** Every post's permalink appears in the feed as a `<link>` element. */
  lemma RssLinksEveryPost(siteUrlEnv: Option<string>, posts: seq<Posts.Post>, utcString: string -> string, i: nat)
    requires i < |posts|
    ensures Contains(Rss(siteUrlEnv, posts, utcString), "<link>" + Permalink(SiteUrl(siteUrlEnv), posts[i].id) + "</link>")
  {
    var siteUrl := SiteUrl(siteUrlEnv);
    var items := Items(siteUrl, posts, utcString);
    var link := "<link>" + items[i].link + "</link>";
    OccursInside(ItemLead(items[i]), link, ItemTail(items[i]), link, 0);
    ConcatContains(ItemsXml(items), i, link, |ItemLead(items[i])|);
    var body := Concat(ItemsXml(items));
    var k :| OccursAt(body, link, k);
    OccursInside(ChannelHead(siteUrl), body, ChannelTail, link, k);
  }

  /** The feed's channel carries the site URL as its link and `/feed` as its self link. */
  lemma RssChannelLinks(siteUrlEnv: Option<string>, posts: seq<Posts.Post>, utcString: string -> string)
    ensures Contains(Rss(siteUrlEnv, posts, utcString), ChannelLink(SiteUrl(siteUrlEnv)))
    ensures Contains(Rss(siteUrlEnv, posts, utcString), AtomLink(SiteUrl(siteUrlEnv)))
  {
    var siteUrl := SiteUrl(siteUrlEnv);
    var body := Concat(ItemsXml(Items(siteUrl, posts, utcString)));
    HeadLinks(siteUrl);
    InHead(ChannelHead(siteUrl), body, ChannelTail, ChannelLink(siteUrl));
    InHead(ChannelHead(siteUrl), body, ChannelTail, AtomLink(siteUrl));
  }

  lemma HeadLinks(siteUrl: string)
    ensures Contains(ChannelHead(siteUrl), ChannelLink(siteUrl))
    ensures Contains(ChannelHead(siteUrl), AtomLink(siteUrl))
  {
    var head := ChannelHead(siteUrl);
    var k1 := |Prolog|;
    var k2 := k1 + |ChannelLink(siteUrl)| + |Indent|;
    Witness(head, ChannelLink(siteUrl), k1);
    Witness(head, AtomLink(siteUrl), k2);
  }

  lemma Witness(s: string, x: string, k: int)
    requires OccursAt(s, x, k)
    ensures Contains(s, x)
  {
  }

  /** What occurs in the head of a document occurs in the document. */
  lemma InHead(head: string, body: string, tail: string, x: string)
    requires Contains(head, x)
    ensures Contains(head + body + tail, x)
  {
    var k :| OccursAt(head, x, k);
    OccursBefore(head, body, x, k);
    OccursBefore(head + body, tail, x, k);
  }

  /** An empty listing still gives a well-formed channel with no items. */
  lemma EmptyFeed(siteUrlEnv: Option<string>, utcString: string -> string)
    ensures Rss(siteUrlEnv, [], utcString) == ChannelHead(SiteUrl(siteUrlEnv)) + ChannelTail
  {
    var head := ChannelHead(SiteUrl(siteUrlEnv));
    assert Items(SiteUrl(siteUrlEnv), [], utcString) == [];
    assert ItemsXml([]) == [];
    assert Rss(siteUrlEnv, [], utcString) == head + Concat([]) + ChannelTail;
    assert head + [] == head;
  }
}
