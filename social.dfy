/**
 * The social feed: posts fetched from Bluesky and from a Pixelfed instance,
 * turned into one shape, merged and sorted newest first.
 *
 * Environment variables are parameters. Each HTTP exchange is a parameter that maps
 * the request's data to a `Fetched` answer: `Threw` for a rejected `fetch` or
 * unparsable JSON, `NotOk` for a status outside 200-299, `Delivered` for the parsed
 * body. `epochMillis` stands for `new Date(timestamp).getTime()`.
 */
module Social {
  import opened Wrappers
  import opened JsString
  import opened Seqs
  import Sorting

  datatype Fetched<T> = Threw | NotOk | Delivered(body: T)

  // --- Bluesky input, as the JSON the AT Protocol returns (absent keys are None)

  datatype Image = Image(full: Option<string>, thumb: Option<string>)
  datatype Embed = Embed(images: Option<seq<Image>>)
  datatype BskyRecord = BskyRecord(text: Option<string>, createdAt: Option<string>, embed: Option<Embed>)
  datatype BskyPost = BskyPost(uri: Option<string>, cid: Option<string>, record: Option<BskyRecord>, embeds: Option<seq<Embed>>)
  datatype FeedItem = FeedItem(post: Option<BskyPost>)

  // --- Pixelfed input, as the Mastodon-compatible statuses endpoint returns it

  datatype Attachment = Attachment(url: Option<string>)
  datatype Status = Status(
    id: Option<string>,
    content: Option<string>,
    createdAt: Option<string>,
    url: Option<string>,
    mediaAttachments: Option<seq<Attachment>>)
  datatype StatusesBody = StatusArray(statuses: seq<Status>) | NotAnArray

  // --- The common shape

  datatype SocialPost =
    | BlueskyPost(id: string, timestamp: string, content: string, imageUrls: seq<string>, postUrl: Option<string>)
    | PixelfedPost(id: string, created: Option<string>, content: string, imageUrl: Option<string>, postUrl: Option<string>)

  /** The `platform` field each normaliser writes. */
  function Platform(p: SocialPost): string {
    if p.BlueskyPost? then "Bluesky" else "Pixelfed"
  }

  /** The `timestamp` field (a Pixelfed status without `created_at` has none). */
  function Timestamp(p: SocialPost): Option<string> {
    if p.BlueskyPost? then Some(p.timestamp) else p.created
  }

  // --- Bluesky images

  /** `img.full || img.thumb`. */
  function Choice(img: Image): Option<string> {
    if Truthy(img.full) then img.full else img.thumb
  }

  function Choices(imgs: seq<Image>): (r: seq<Option<string>>)
    ensures |r| == |imgs| && forall i :: 0 <= i < |imgs| ==> r[i] == Choice(imgs[i])
  {
    seq(|imgs|, i requires 0 <= i < |imgs| => Choice(imgs[i]))
  }

  function EmbedImages(e: Option<Embed>): seq<Image> {
    if e.Some? && e.value.images.Some? then e.value.images.value else []
  }

  /** The images of a list of embeds, embed after embed. */
  function ImagesOfEmbeds(es: seq<Embed>): seq<Image> {
    if es == [] then [] else ImagesOfEmbeds(es[..|es| - 1]) + EmbedImages(Some(es[|es| - 1]))
  }

  /** Every image the post carries, in the order the source visits them:
      those of `record.embed` first, then those of each entry of `embeds`. */
  function AllImages(post: Option<BskyPost>): seq<Image> {
    if post.None? then []
    else
      var single := if post.value.record.Some? then post.value.record.value.embed else None;
      var multiple := if post.value.embeds.Some? then post.value.embeds.value else [];
      EmbedImages(single) + ImagesOfEmbeds(multiple)
  }

  /** `xs.filter(Boolean)` on a list of strings and `undefined`s: the truthy entries,
      in their original order. */
  function TruthyValues(xs: seq<Option<string>>): (r: seq<string>)
    ensures |r| == |Filter(xs, Truthy)| && forall i :: 0 <= i < |r| ==> Filter(xs, Truthy)[i] == Some(r[i])
    ensures forall u :: u in r <==> Some(u) in xs && u != ""
    ensures |r| <= |xs|
  {
    if xs == [] then []
    else
      FilterTruthyCons(xs);
      (if Truthy(xs[0]) then [xs[0].value] else []) + TruthyValues(xs[1..])
  }

  lemma FilterTruthyCons(xs: seq<Option<string>>)
    requires xs != []
    ensures Filter(xs, Truthy) == (if Truthy(xs[0]) then [xs[0]] else []) + Filter(xs[1..], Truthy)
  {
  }

  /** The `imageUrls` of a post: for each image its full URL, or its thumbnail when the
      full URL is missing or empty, dropping images that have neither. */
  function ImageUrls(post: Option<BskyPost>): (urls: seq<string>)
    ensures forall u :: u in urls <==>
              u != "" && exists i :: 0 <= i < |AllImages(post)| && Choice(AllImages(post)[i]) == Some(u)
    ensures var kept := Filter(Choices(AllImages(post)), Truthy);
            |urls| == |kept| && forall i :: 0 <= i < |urls| ==> kept[i] == Some(urls[i])
    ensures |urls| <= |AllImages(post)|
  {
    var imgs := AllImages(post);
    var urls := TruthyValues(Choices(imgs));
    assert forall u :: Some(u) in Choices(imgs) <==> exists i :: 0 <= i < |imgs| && Choice(imgs[i]) == Some(u);
    urls
  }

  /** A non-empty full-size URL is always taken over the thumbnail. */
  lemma FullSizePreferred(post: Option<BskyPost>, i: nat)
    requires i < |AllImages(post)|
    ensures Truthy(AllImages(post)[i].full) ==> AllImages(post)[i].full.value in ImageUrls(post)
    ensures !Truthy(AllImages(post)[i].full) && Truthy(AllImages(post)[i].thumb) ==>
              AllImages(post)[i].thumb.value in ImageUrls(post)
  {
  }

  /** `images.forEach((img) => imageUrls.push(img.full || img.thumb))`. */
  method PushChoices(pushed: seq<Option<string>>, imgs: seq<Image>) returns (after: seq<Option<string>>)
    ensures after == pushed + Choices(imgs)
  {
    after := pushed;
    var k := 0;
    while k < |imgs|
      invariant 0 <= k <= |imgs|
      invariant after == pushed + Choices(imgs[..k])
    {
      assert imgs[..k + 1] == imgs[..k] + [imgs[k]];
      after := after + [Choice(imgs[k])];
      k := k + 1;
    }
    assert imgs[..k] == imgs;
  }

  /** The image loops of the Bluesky normaliser: the images of `record.embed`, then
      those of every entry of `embeds`, then the falsy entries dropped. */
  method CollectImageUrls(post: Option<BskyPost>) returns (imageUrls: seq<string>)
    ensures imageUrls == ImageUrls(post)
  {
    var pushed: seq<Option<string>> := [];
    if post.Some? {
      var singleEmbed := if post.value.record.Some? then post.value.record.value.embed else None;
      if singleEmbed.Some? && singleEmbed.value.images.Some? {
        pushed := PushChoices(pushed, singleEmbed.value.images.value);
      }
      assert pushed == Choices(EmbedImages(singleEmbed));
      var multiple := if post.value.embeds.Some? then post.value.embeds.value else [];
      pushed := PushEmbeds(pushed, multiple);
      ChoicesAppend(EmbedImages(singleEmbed), ImagesOfEmbeds(multiple));
      assert AllImages(post) == EmbedImages(singleEmbed) + ImagesOfEmbeds(multiple);
    }
    assert pushed == Choices(AllImages(post));
    imageUrls := TruthyValues(pushed);
  }

  /** `embeds.forEach(...)`, pushing the choices of each embed that has images. */
  method PushEmbeds(pushed: seq<Option<string>>, embeds: seq<Embed>) returns (after: seq<Option<string>>)
    ensures after == pushed + Choices(ImagesOfEmbeds(embeds))
  {
    after := pushed;
    var e := 0;
    while e < |embeds|
      invariant 0 <= e <= |embeds|
      invariant after == pushed + Choices(ImagesOfEmbeds(embeds[..e]))
    {
      var before := ImagesOfEmbeds(embeds[..e]);
      var here := EmbedImages(Some(embeds[e]));
      ImagesOfEmbedsSnoc(embeds, e);
      ChoicesAppend(before, here);
      if embeds[e].images.Some? {
        after := PushChoices(after, embeds[e].images.value);
      } else {
        assert Choices(here) == [];
      }
      AppendAssoc(pushed, Choices(before), Choices(here));
      e := e + 1;
    }
    assert embeds[..e] == embeds;
  }

  lemma ImagesOfEmbedsSnoc(embeds: seq<Embed>, e: nat)
    requires e < |embeds|
    ensures ImagesOfEmbeds(embeds[..e + 1]) == ImagesOfEmbeds(embeds[..e]) + EmbedImages(Some(embeds[e]))
  {
    assert embeds[..e + 1][..e] == embeds[..e];
  }

  lemma ChoicesAppend(a: seq<Image>, b: seq<Image>)
    ensures Choices(a + b) == Choices(a) + Choices(b)
  {
  }

  // --- Bluesky post links

  /** The bsky.app link of a post: only for an `at://` URI, keyed by the fifth `/`-separated part. */
  function BlueskyPostUrl(identifier: string, uri: Option<string>): (url: Option<string>)
    ensures url.Some? <==> Truthy(uri) && StartsWith(uri.value, "at://")
    ensures url.Some? ==> StartsWith(url.value, "https://bsky.app/profile/" + identifier + "/post/")
  {
    if Truthy(uri) && StartsWith(uri.value, "at://") then
      var parts := Split(uri.value, '/');
      var rkey := if |parts| > 4 then Some(parts[4]) else None;
      Some("https://bsky.app/profile/" + identifier + "/post/" + Interpolate(rkey))
    else None
  }

  /** For a well-formed `at://did/collection/rkey` URI the link ends in the record key. */
  lemma BlueskyPostUrlOfAtUri(identifier: string, did: string, collection: string, rkey: string)
    requires '/' !in did && '/' !in collection && '/' !in rkey
    ensures BlueskyPostUrl(identifier, Some("at://" + did + "/" + collection + "/" + rkey))
            == Some("https://bsky.app/profile/" + identifier + "/post/" + rkey)
  {
    var uri := "at://" + did + "/" + collection + "/" + rkey;
    var parts := ["at:", "", did, collection, rkey];
    assert uri == Join(parts, '/') by {
      assert Join(parts, '/') == "at:" + ['/'] + Join(parts[1..], '/');
      assert Join(parts[1..], '/') == "" + ['/'] + Join(parts[2..], '/');
      assert Join(parts[2..], '/') == did + ['/'] + Join(parts[3..], '/');
      assert Join(parts[3..], '/') == collection + ['/'] + Join(parts[4..], '/');
      assert Join(parts[4..], '/') == rkey;
    }
    assert forall i :: 0 <= i < |parts| ==> '/' !in parts[i];
    SplitJoin(parts, '/');
    assert StartsWith(uri, "at://") by {
      assert uri[..5] == "at://";
    }
  }

  /** A URI that is not an `at://` URI gives no link. */
  lemma NoLinkWithoutAtUri(identifier: string, uri: Option<string>)
    requires uri.Some? ==> !StartsWith(uri.value, "at://")
    ensures BlueskyPostUrl(identifier, uri).None?
  {
  }

  // --- Normalisers

  /** `item.post?.record`. */
  function RecordOf(post: Option<BskyPost>): Option<BskyRecord> {
    if post.Some? then post.value.record else None
  }

  /** `item.post?.uri`. */
  function UriOf(post: Option<BskyPost>): Option<string> {
    if post.Some? then post.value.uri else None
  }

  /** One feed item in the common shape (the `map` callback, with the images as `ImageUrls`). */
  function BlueskyPostOf(identifier: string, item: FeedItem): (p: SocialPost)
    ensures p.BlueskyPost? && Platform(p) == "Bluesky"
    ensures p.id == BlueskyId(item.post) && StartsWith(p.id, "bluesky-")
    ensures RecordOf(item.post).Some? && RecordOf(item.post).value.text.Some? ==> p.content == RecordOf(item.post).value.text.value
    ensures RecordOf(item.post).None? || RecordOf(item.post).value.text.None? ==> p.content == ""
    ensures RecordOf(item.post).Some? && RecordOf(item.post).value.createdAt.Some? ==> p.timestamp == RecordOf(item.post).value.createdAt.value
    ensures RecordOf(item.post).None? || RecordOf(item.post).value.createdAt.None? ==> p.timestamp == ""
    ensures p.imageUrls == ImageUrls(item.post)
    ensures forall i :: 0 <= i < |p.imageUrls| ==> p.imageUrls[i] != ""
    ensures p.postUrl == BlueskyPostUrl(identifier, UriOf(item.post))
    ensures p.postUrl.Some? <==> item.post.Some? && Truthy(item.post.value.uri) && StartsWith(item.post.value.uri.value, "at://")
  {
    var post := item.post;
    var record := RecordOf(post);
    var content := Coalesce(if record.Some? then record.value.text else None, "");
    var timestamp := Coalesce(if record.Some? then record.value.createdAt else None, "");
    var uri := UriOf(post);
    assert forall i :: 0 <= i < |ImageUrls(post)| ==> ImageUrls(post)[i] in ImageUrls(post);
    BlueskyPost(BlueskyId(post), timestamp, content, ImageUrls(post), BlueskyPostUrl(identifier, uri))
  }

  /** A template literal `${prefix}${v}`. */
  function Prefixed(prefix: string, v: Option<string>): (s: string)
    ensures StartsWith(s, prefix)
    ensures v.Some? ==> s == prefix + v.value
  {
    var s := prefix + Interpolate(v);
    assert s[..|prefix|] == prefix;
    s
  }

  /** `bluesky-${item.post?.uri ?? item.post?.cid}`. */
  function BlueskyId(post: Option<BskyPost>): string {
    var postId := if post.Some? && post.value.uri.Some? then post.value.uri
                  else if post.Some? then post.value.cid else None;
    Prefixed("bluesky-", postId)
  }

  /** The id records which field named the post: the URI when present, else the CID. */
  lemma BlueskyIdSource(post: BskyPost)
    ensures post.uri.Some? ==> BlueskyId(Some(post)) == "bluesky-" + post.uri.value
    ensures post.uri.None? && post.cid.Some? ==> BlueskyId(Some(post)) == "bluesky-" + post.cid.value
    ensures post.uri.None? && post.cid.None? ==> BlueskyId(Some(post)) == "bluesky-undefined"
  {
    if post.uri.None? && post.cid.None? {
      assert BlueskyId(Some(post)) == "bluesky-" + "undefined";
    }
  }

  /** The prefixes keep the two platforms' ids apart. */
  lemma PlatformIdsDisjoint(identifier: string, item: FeedItem, status: Status)
    ensures BlueskyPostOf(identifier, item).id != PixelfedPostOf(status).id
  {
    var a := BlueskyPostOf(identifier, item).id;
    var b := PixelfedPostOf(status).id;
    assert a[..8] == "bluesky-" && b[..9] == "pixelfed-";
    assert a[0] == a[..8][0] && b[0] == b[..9][0];
  }

  /** One status in the common shape: only the first attachment's URL is kept. */
  function PixelfedPostOf(status: Status): (p: SocialPost)
    ensures p.PixelfedPost? && Platform(p) == "Pixelfed"
    ensures p.id == Prefixed("pixelfed-", status.id) && StartsWith(p.id, "pixelfed-")
    ensures status.id.Some? ==> p.id == "pixelfed-" + status.id.value
    ensures p.content == Coalesce(status.content, "") && p.postUrl == status.url && p.created == status.createdAt
    ensures p.imageUrl.Some? ==>
              status.mediaAttachments.Some? && |status.mediaAttachments.value| > 0
              && p.imageUrl == status.mediaAttachments.value[0].url
    ensures status.mediaAttachments.Some? && |status.mediaAttachments.value| > 0 ==>
              p.imageUrl == status.mediaAttachments.value[0].url
  {
    var imageUrl :=
      if status.mediaAttachments.Some? && |status.mediaAttachments.value| > 0
      then status.mediaAttachments.value[0].url else None;
    PixelfedPost(Prefixed("pixelfed-", status.id), status.createdAt, Coalesce(status.content, ""), imageUrl, status.url)
  }

  // --- Fetchers

  /** `fetchBlueskyPosts`. `createSession` answers the login with the `accessJwt` of its
      body (None when missing); `getAuthorFeed` answers the feed request made with the
      handle and that token with the body's `feed` (None when missing or empty). */
  function FetchBlueskyPosts(
    identifier: Option<string>,
    password: Option<string>,
    createSession: (string, string) -> Fetched<Option<string>>,
    getAuthorFeed: (string, string) -> Fetched<Option<seq<FeedItem>>>)
    : (posts: seq<SocialPost>)
    ensures !Truthy(identifier) || !Truthy(password) ==> posts == []
    ensures Truthy(identifier) && Truthy(password) && !createSession(identifier.value, password.value).Delivered? ==> posts == []
    ensures forall i :: 0 <= i < |posts| ==> posts[i].BlueskyPost?
    ensures Truthy(identifier) && Truthy(password) ==>
              var session := createSession(identifier.value, password.value);
              && (session.Delivered? && !Truthy(session.body) ==> posts == [])
              && (session.Delivered? && Truthy(session.body) ==>
                    var feed := getAuthorFeed(identifier.value, session.body.value);
                    && (!feed.Delivered? ==> posts == [])
                    && (feed.Delivered? ==>
                          var items := if feed.body.Some? then feed.body.value else [];
                          && |posts| == |items|
                          && forall i :: 0 <= i < |posts| ==> posts[i] == BlueskyPostOf(identifier.value, items[i])))
    ensures posts != [] ==>
              && Truthy(identifier) && Truthy(password)
              && var session := createSession(identifier.value, password.value);
                 && session.Delivered? && Truthy(session.body)
                 && var feed := getAuthorFeed(identifier.value, session.body.value);
                    && feed.Delivered? && feed.body.Some?
                    && |posts| == |feed.body.value|
                    && forall i :: 0 <= i < |posts| ==> posts[i] == BlueskyPostOf(identifier.value, feed.body.value[i])
  {
    if !Truthy(identifier) || !Truthy(password) then []
    else
      match createSession(identifier.value, password.value)
      case Threw => []
      case NotOk => []
      case Delivered(accessJwt) =>
        if !Truthy(accessJwt) then []
        else
          match getAuthorFeed(identifier.value, accessJwt.value)
          case Threw => []
          case NotOk => []
          case Delivered(feed) =>
            var feedItems := if feed.Some? then feed.value else [];
            seq(|feedItems|, i requires 0 <= i < |feedItems| => BlueskyPostOf(identifier.value, feedItems[i]))
  }

  /** `${instance}/api/v1/accounts/${userId}/statuses?limit=10`. */
  function StatusesUrl(instance: string, userId: string): string {
    instance + "/api/v1/accounts/" + userId + "/statuses?limit=10"
  }

  /** `fetchPixelfedPosts`. `getStatuses` answers the request for a URL with a bearer token. */
  function FetchPixelfedPosts(
    instance: Option<string>,
    userId: Option<string>,
    token: Option<string>,
    getStatuses: (string, string) -> Fetched<StatusesBody>)
    : (posts: seq<SocialPost>)
    ensures !Truthy(instance) || !Truthy(userId) || !Truthy(token) ==> posts == []
    ensures forall i :: 0 <= i < |posts| ==> posts[i].PixelfedPost?
    ensures Truthy(instance) && Truthy(userId) && Truthy(token) ==>
              match getStatuses(StatusesUrl(instance.value, userId.value), token.value)
              case Delivered(StatusArray(statuses)) =>
                |posts| == |statuses| && forall i :: 0 <= i < |posts| ==> posts[i] == PixelfedPostOf(statuses[i])
              case _ => posts == []
  {
    if !Truthy(instance) || !Truthy(userId) || !Truthy(token) then []
    else
      match getStatuses(StatusesUrl(instance.value, userId.value), token.value)
      case Threw => []
      case NotOk => []
      case Delivered(NotAnArray) => []
      case Delivered(StatusArray(statuses)) =>
        seq(|statuses|, i requires 0 <= i < |statuses| => PixelfedPostOf(statuses[i]))
  }

  // --- Merge

  /** `new Date(b.timestamp).getTime() - new Date(a.timestamp).getTime()` orders `a`
      after `b` when `a`'s instant is the earlier one. */
  function Earlier(epochMillis: Option<string> -> int): (lt: (SocialPost, SocialPost) -> bool)
    ensures Sorting.StrictWeakOrder(lt)
    ensures forall a, b :: lt(a, b) <==> epochMillis(Timestamp(a)) < epochMillis(Timestamp(b))
  {
    (a: SocialPost, b: SocialPost) => epochMillis(Timestamp(a)) < epochMillis(Timestamp(b))
  }

  /** `getAllSocialPosts`: the Bluesky posts and the Pixelfed posts together, newest first. */
  method GetAllSocialPosts(bluesky: seq<SocialPost>, pixelfed: seq<SocialPost>, epochMillis: Option<string> -> int)
    returns (combined: seq<SocialPost>)
    ensures multiset(combined) == multiset(bluesky) + multiset(pixelfed)
    ensures |combined| == |bluesky| + |pixelfed|
    ensures forall i, j :: 0 <= i < j < |combined| ==>
              epochMillis(Timestamp(combined[i])) >= epochMillis(Timestamp(combined[j]))
  {
    var lt := Earlier(epochMillis);
    combined := Sorting.SortDescending(bluesky + pixelfed, lt);
  }
}
