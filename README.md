# A minimal markdown blog, modelled in Dafny

The blog reads markdown posts from a `posts/` directory. Each post has YAML front matter. The blog lists the posts newest first and renders one post to HTML with an oEmbed-aware pipeline, falling back to plain rendering. On top of that it:

- serves the listing five posts at a time through `GET /api/posts?page=N`;
- publishes an RSS 2.0 feed at `/feed`;
- generates `sitemap.xml` at build time;
- merges recent Bluesky and Pixelfed posts into one social feed;
- lets readers filter the archive by year, month and tag;
- grows the home page's list as the reader scrolls.

This project models the logic between the foreign calls.

- The filesystem and gray-matter become a function `read` from file name to front matter and body. A second function, `fileExists`, says whether a file is present.
- `Date` becomes `calendar` (year and month of a date string), `utcString` and `epochMillis`.
- The two remark pipelines become `enhanced` and `plain`, each returning a `Result`.
- Every HTTP exchange becomes a function returning a `Fetched` answer: `Threw`, `NotOk` or `Delivered(body)`.
- Environment variables and "today" are parameters.
- JavaScript values that may be `undefined` or `null` are `Option`s. JavaScript truthiness of a string is `JsString.Truthy` (present and non-empty). String `<`, `trim`, `split` and `parseInt` (section 19.2.5 of ECMA-262) are written out in `JsString`.

Files and modules:

| file | module | models |
|---|---|---|
| `wrappers.dfy` | `Wrappers` | `Option`, `Result` |
| `jsstring.dfy` | `JsString` | JavaScript string semantics used by the blog |
| `seqs.dfy` | `Seqs` | filter, distinct-in-first-appearance-order, flatten |
| `sorting.dfy` | `Sorting` | `Array.prototype.sort` with a "newest first" comparator: an in-place insertion sort on an array |
| `posts.dfy` | `Posts` | `lib/posts.js` |
| `postsapi.dfy` | `PostsApi` | `app/api/posts/route.js` |
| `social.dfy` | `Social` | `lib/fetchSocialPosts.js` |
| `sitemap.dfy` | `Sitemap` | `scripts/generate-sitemap.js` |
| `feed.dfy` | `Feed` | `app/feed/route.js` |
| `archive.dfy` | `Archive` | `app/components/AllPostsPage.js` (a class for the page's state) |
| `home.dfy` | `Home` | `app/components/HomePage.js` (a class for the pager's state) |

The model follows the code wherever the documented behaviour differs from it:

- `?page=2.5` is page 2, not an error. `parseInt` stops at the first non-digit.
- Leading whitespace such as `?page=%203` is skipped.
- With no posts at all, every page number of 1 or more is answered with an empty page and `totalPages` 0, never with "Page out of range".
- RSS titles and descriptions are inserted without XML escaping. An absent title or excerpt prints as `undefined`.
- A rendered post's `year` and `month` are the front matter's own keys. They are not derived from the date as in the listing.

## Model

| member | source | states |
|---|---|---|
| Posts.PostId | lib/posts.js:24 | the id of a `.md` file name is the name with exactly the trailing `.md` removed (`id + ".md"` gives the name back) |
| Posts.PostIdInjective | lib/posts.js:24 | distinct markdown file names give distinct ids |
| Posts.PostOf | lib/posts.js:23-51 | a post's id, title, date, calendar year and month; `tags` is the front matter's list or `[]`; `excerpt` is the front-matter excerpt when truthy, else the first line whose trim is non-empty (`None` when there is none) |
| Posts.FirstNonBlankLine | lib/posts.js:39 | the first line of the body whose trim is non-empty; `None` exactly when every line is blank |
| Seqs.FirstWhere | lib/posts.js:39 | `filter(...)[0]` is undefined exactly when no element passes, otherwise it is the first element that passes |
| JsString.TrimEmptyIffBlank | lib/posts.js:39 | `line.trim() !== ""` holds exactly when the line has a character that is not whitespace |
| Posts.Listing | lib/posts.js:21-51 | one post per `.md` name, in directory order, each built from its own file |
| Posts.ListingIds | lib/posts.js:21-24 | only `.md` names become posts, as many as there are such names; each id plus `.md` is a directory entry; distinct entries give distinct ids |
| Posts.DateBelowIsStrictWeakOrder | lib/posts.js:53 | the date comparator, read as "strictly older date string", is a strict weak order, so sorting by it is well defined |
| Posts.GetSortedPostsData | lib/posts.js:19-54 | the result is a permutation of the listing, has one post per `.md` file, is non-increasing by date string, and keeps ids distinct |
| Posts.PermutationKeepsIds | lib/posts.js:53 | sorting cannot create duplicate ids |
| Posts.Render | lib/posts.js:79-115 | the embed-enabled render's HTML when it succeeds, otherwise the plain render's result |
| Posts.GetPostData | lib/posts.js:64-116 | an empty or non-string id fails with "Invalid post ID"; a missing `${id}.md` fails with "Post not found"; a success carries the rendered HTML and the front matter's title, date, year, month and tags (`[]` by default) |
| Posts.FallbackKeepsMetadata | lib/posts.js:79-115 | whether the embed render succeeds or falls back changes only `contentHtml` |
| Posts.GetPostDataFails | lib/posts.js:64-116 | a lookup fails exactly when the id is invalid, the file is missing, or both renders fail |
| Posts.ErrorMessage | lib/posts.js:65-72 | an invalid id reads "Invalid post ID"; a missing file reads "Post not found: " followed by the id |
| Sorting.SortInPlace | lib/posts.js:53 | sorting in place leaves the array a permutation of itself and non-increasing by the comparator |
| Sorting.Insert | lib/posts.js:53 | one insertion step extends the descending prefix by one element, only rearranges that prefix, and leaves the rest of the array as it was |
| Sorting.SortDescending | lib/fetchSocialPosts.js:198 | a sorted copy is a permutation of the input, of the same length, and non-increasing |
| PostsApi.ErrorField | app/api/posts/route.js:23-73 | the response body has an `error` field exactly when the status is not 200 |
| JsString.ParseInt | app/api/posts/route.js:19 | `parseInt(s, 10)` is NaN exactly when no digit follows the leading whitespace and one sign; a number after `-` is never positive, any other never negative |
| PostsApi.PageParam | app/api/posts/route.js:19 | a missing or empty `page` parameter reads as page 1; any other is read by `parseInt` |
| JsString.ParseIntNaN | app/api/posts/route.js:19 | `parseInt` gives NaN exactly when, after leading whitespace and one sign, no digit follows |
| JsString.ParseIntDecimal | app/api/posts/route.js:19 | `parseInt` reads back the decimal writing of any integer, whatever non-digit text follows |
| PostsApi.TotalPages | app/api/posts/route.js:36-37 | `totalPages` is the ceiling of `total / 5`: the least `n` with `total <= 5n`, and 0 only for no posts |
| PostsApi.Slice | app/api/posts/route.js:53-54 | `slice(start, end)` keeps the elements from `start`, at most `end - start` of them, cut off at the end of the list |
| PostsApi.Get | app/api/posts/route.js:16-74 | the request is rejected as an invalid page exactly when the parsed parameter is NaN or below 1; otherwise the posts are read and answered |
| PostsApi.Respond | app/api/posts/route.js:34-73 | a read failure gives 500 with its message; "Page out of range" with `totalPages` and `currentPage` exactly when `0 < totalPages < page`; otherwise the page holds exactly `slice((page - 1) * 5, (page - 1) * 5 + 5)` of the posts, at most five, with the totals |
| PostsApi.PageIsFull | app/api/posts/route.js:53-54 | every page before the last holds exactly five posts |
| PostsApi.EmptyListingServesEveryPage | app/api/posts/route.js:40 | with no posts every valid page is served, empty, with `totalPages` 0 |
| PostsApi.DefaultPage | app/api/posts/route.js:19 | a missing or empty `page` parameter means page 1 |
| PostsApi.FractionTruncated | app/api/posts/route.js:19 | `?page=2.5` requests page 2 |
| PostsApi.LettersRejected | app/api/posts/route.js:19-32 | `?page=abc` is rejected as an invalid page |
| PostsApi.ZeroRejected | app/api/posts/route.js:23-32 | `?page=0` is rejected as an invalid page |
| PostsApi.LeadingSpaceSkipped | app/api/posts/route.js:19 | `?page=%203` requests page 3 |
| PostsApi.PageParamOfDecimal | app/api/posts/route.js:19 | the decimal writing of any number, followed by nothing or by a non-digit, parses back to that number |
| PostsApi.PagesCoverListing | app/api/posts/route.js:36-54 | concatenating the posts of pages 1 to `totalPages` gives the whole listing back, in order, without gaps or repeats |
| PostsApi.PageOfRequested | app/api/posts/route.js:16-74 | the page counted in the listing's cover is what the handler answers to `?page=<n>` |
| PostsApi.PageWindow | app/api/posts/route.js:53-54 | page `n` of `1..totalPages` is the window of five posts starting at `(n - 1) * 5`, cut off at the end |
| PostsApi.InvalidPageIndependentOfPosts | app/api/posts/route.js:23-35 | rejecting the page parameter happens before, and regardless of, reading the posts |
| Social.TruthyValues | lib/fetchSocialPosts.js:84 | `filter(Boolean)` keeps exactly the present, non-empty strings, in their original order |
| Social.ImageUrls | lib/fetchSocialPosts.js:58-84 | a URL is listed exactly when it is the non-empty choice (full size, else thumbnail) of one of the post's images, and the list follows the order of the images |
| Social.FullSizePreferred | lib/fetchSocialPosts.js:66 | an image's non-empty full-size URL is listed; its thumbnail is listed when the full URL is missing or empty |
| Social.PushChoices | lib/fetchSocialPosts.js:64-67 | the `forEach` loop appends the choice of every image, in order |
| Social.PushEmbeds | lib/fetchSocialPosts.js:72-81 | the loop over `post.embeds` appends the choices of each embed's images, embed after embed |
| Social.CollectImageUrls | lib/fetchSocialPosts.js:58-84 | the imperative image loops compute exactly `ImageUrls`: the single embed's images first, then each embed's, falsy entries dropped |
| Social.BlueskyPostUrlOfAtUri | lib/fetchSocialPosts.js:87-94 | for `at://did/collection/rkey` the link is `https://bsky.app/profile/<identifier>/post/<rkey>` |
| Social.NoLinkWithoutAtUri | lib/fetchSocialPosts.js:87-94 | a post whose URI is absent or does not start with `at://` gets no link |
| Social.BlueskyPostUrl | lib/fetchSocialPosts.js:86-94 | a link exists exactly when the URI is a non-empty `at://` URI, and it always starts `https://bsky.app/profile/<identifier>/post/` |
| Social.BlueskyPostOf | lib/fetchSocialPosts.js:52-104 | each feed item becomes one Bluesky post with a `bluesky-` id, the record's text and `createdAt` (each `""` when absent), the collected image URLs (none empty), and the bsky.app link of its URI, present exactly when the URI is an `at://` URI |
| Social.Prefixed | lib/fetchSocialPosts.js:97 | an interpolated id starts with its platform prefix, followed by the field's value when present |
| Social.BlueskyIdSource | lib/fetchSocialPosts.js:53 | a Bluesky id is `bluesky-` and the URI when present, else the CID, else `bluesky-undefined` |
| Social.PlatformIdsDisjoint | lib/fetchSocialPosts.js:97-165 | no Bluesky id equals a Pixelfed id |
| Social.PixelfedPostOf | lib/fetchSocialPosts.js:151-173 | a status becomes a Pixelfed post whose id is `pixelfed-` and the status id, with its content (or `""`), `created_at` and `url`; `imageUrl` is the first attachment's URL exactly when there is an attachment |
| Social.FetchBlueskyPosts | lib/fetchSocialPosts.js:7-111 | missing credentials, a failed or thrown session request, a missing `accessJwt`, or a failed feed request all give `[]`; after a good login and feed request there is one normalised post per feed item, in order (none for an absent feed) |
| Social.FetchPixelfedPosts | lib/fetchSocialPosts.js:119-180 | missing configuration, a failed or thrown request, or a body that is not an array all give `[]`; otherwise one normalised post per status, in order |
| Social.Earlier | lib/fetchSocialPosts.js:198 | the timestamp comparator, on parsed instants, is a strict weak order |
| Social.GetAllSocialPosts | lib/fetchSocialPosts.js:188-201 | the merged feed is a permutation of the Bluesky posts followed by the Pixelfed posts, its length is their sum, and it is non-increasing by timestamp |
| Sitemap.BaseUrl | scripts/generate-sitemap.js:28-30 | the base URL is the domain with one trailing `/` removed when present, otherwise the domain itself |
| Sitemap.StaticUrls | scripts/generate-sitemap.js:33-35 | the empty static page is the base URL; `about`, `posts` and `social` are `base/<page>`, in that order |
| Sitemap.PostUrls | scripts/generate-sitemap.js:41-53 | one `base/posts/<slug>` per `.md` file, in directory order; none when the directory is missing |
| Sitemap.PostUrlsNameFiles | scripts/generate-sitemap.js:47-53 | every post URL names a `.md` file of the directory, and distinct files give distinct URLs |
| Sitemap.AllUrlsBelowBase | scripts/generate-sitemap.js:33-53 | every URL after the first extends the base URL by `/` and a non-empty path |
| Sitemap.Entries | scripts/generate-sitemap.js:77-85 | one entry per URL, in order, each with that URL, the date, `weekly`, and priority `1.0` exactly when the URL equals the home URL compared against, otherwise `0.7` |
| Sitemap.EntriesAsWritten | scripts/generate-sitemap.js:70-85 | the generator's entries: one per URL, in order, `weekly`, and priority `1.0` exactly when the URL equals the configured domain as given |
| Sitemap.TrailingSlashLosesHomePriority | scripts/generate-sitemap.js:83 | when the configured domain ends in `/`, no entry gets priority `1.0` |
| Sitemap.HomePageDemotedExample | scripts/generate-sitemap.js:83 | with `NEXT_PUBLIC_SITE_URL=https://example.com/` the home page is written with priority `0.7` |
| Sitemap.HomePageAloneOnTop | scripts/generate-sitemap.js:70-85 | with the priority compared against the base URL there are 4 + (number of `.md` files) entries, and exactly the first (the home page) has priority `1.0` |
| Sitemap.NoTrailingSlashAgrees | scripts/generate-sitemap.js:28-83 | without a trailing slash the generator as written and the corrected one write the same entries |
| Sitemap.SitemapListsEveryUrl | scripts/generate-sitemap.js:73-86 | every URL of the site appears in `sitemap.xml` as a `<loc>` element, both for the entries as the generator writes them and for the corrected ones |
| Sitemap.SitemapXml | scripts/generate-sitemap.js:73-86 | the document starts with the `urlset` header, ends with `</urlset>`, and holds a `<loc>` element for every entry |
| Feed.Permalink | app/feed/route.js:18-19 | a post's permalink is the site URL, `/posts/`, then the id |
| Feed.PermalinkInjective | app/feed/route.js:18-19 | two posts share a permalink exactly when they share an id |
| Feed.ItemOf | app/feed/route.js:14-22 | an item's `<link>` and `<guid>` are both the permalink; title and description are the post's own, unescaped, or `undefined` when absent; the date is the post's date in UTC form |
| Feed.Items | app/feed/route.js:14-22 | exactly one item per post, in the order of the listing |
| Feed.GuidsDistinct | app/feed/route.js:19 | posts with distinct ids get distinct guids |
| Feed.ChannelHead | app/feed/route.js:7-13 | the channel header holds the `<link>` to the site and the `atom:link` to `/feed` |
| Feed.RssLinksEveryPost | app/feed/route.js:7-24 | every post's permalink appears in the feed as a `<link>` element |
| Feed.RssChannelLinks | app/feed/route.js:12-13 | the feed's channel links to `siteUrl` and to `siteUrl/feed` as its self link |
| Feed.EmptyFeed | app/feed/route.js:7-24 | with no posts the feed is the channel header and footer alone |
| Feed.Rss | app/feed/route.js:7-24 | the document starts with the channel header and ends with the closing `</channel></rss>` |
| Archive.YearBelowIsStrictWeakOrder | app/components/AllPostsPage.js:13 | the comparator `b - a` orders years numerically, newest first, as a strict weak order |
| Archive.Years | app/components/AllPostsPage.js:13 | the year options have no duplicates, are exactly the posts' years, and are strictly descending |
| Archive.Months | app/components/AllPostsPage.js:14 | the month options have no duplicates and are exactly the posts' months |
| Archive.MonthsInFirstAppearanceOrder | app/components/AllPostsPage.js:14 | month options come in the order of each month's first post |
| Archive.Tags | app/components/AllPostsPage.js:15 | the tag options have no duplicates and are exactly the tags in the posts' tag lists |
| Archive.TagsAreUnion | app/components/AllPostsPage.js:15 | a tag is offered exactly when some post carries it |
| Archive.TagsInFirstAppearanceOrder | app/components/AllPostsPage.js:15 | tag options come in order of first appearance |
| Archive.SelectNothing | app/components/AllPostsPage.js:19-31 | with every selector empty, nothing is filtered out |
| Archive.SelectYear | app/components/AllPostsPage.js:22 | choosing a year keeps exactly the posts of that year |
| Archive.OptionsAreInhabited | app/components/AllPostsPage.js:13-28 | each year, month or tag option that is offered selects at least one post |
| Archive.Matches | app/components/AllPostsPage.js:21-29 | with every selector empty, every post passes |
| Archive.Select | app/components/AllPostsPage.js:18-32 | the shown posts are those of the list that pass every non-empty selector, and no more than the list |
| Archive.ArchivePage.constructor | app/components/AllPostsPage.js:5-10 | the page starts with every selector empty and every post shown |
| Archive.ArchivePage.ApplyFilters | app/components/AllPostsPage.js:18-32 | the step-by-step filter effect leaves exactly the posts, in order, that satisfy every non-empty selector |
| Archive.ArchivePage.SetYear | app/components/AllPostsPage.js:40 | choosing a year updates that selector only, and the shown list follows |
| Archive.ArchivePage.SetMonth | app/components/AllPostsPage.js:51 | choosing a month updates that selector only, and the shown list follows |
| Archive.ArchivePage.SetTag | app/components/AllPostsPage.js:62 | choosing a tag updates that selector only, and the shown list follows |
| Home.Shown | app/components/HomePage.js:39 | pages 1 to `page` hold `min(page * 5, n)` posts: no more than `n`, no more than `page * 5`, and all `n` once `page * 5` reaches it |
| Home.HomeFeed.constructor | app/components/HomePage.js:15-17 | the pager starts on page 1, not loading, with every initial post shown |
| Home.HomeFeed.Intersect | app/components/HomePage.js:24-26 | reaching the bottom increases `page` by exactly 1 and changes nothing else |
| Home.HomeFeed.Load | app/components/HomePage.js:35-44 | on page 1 the effect does nothing; otherwise the first `min(page * 5, n)` initial posts are shown and `loading` ends false |
| Home.HomeFeed.Scroll | app/components/HomePage.js:24-44 | after a scroll the pager is settled on the next page, showing that page's prefix |
| Home.FirstScrollShrinks | app/components/HomePage.js:15-44 | with eleven posts the screen shows 11, then 10 after the first scroll |
| Home.PagedHomeFeed.Scroll | app/components/HomePage.js:35-44 | when the pager starts from the first page's posts, each scroll keeps what is shown and adds up to five more, until every post is shown |
| Home.PagedScrollsGrow | app/components/HomePage.js:35-44 | with eleven posts the corrected pager shows 5, then 10, then 11 |

## Left out

- Reading the posts directory and files, writing `public/sitemap.xml`, creating `public/`, and all `console` output are I/O. Directory listings and file contents are parameters.
- gray-matter parsing and the remark, remark-gfm, remark-embedder and oEmbed pipelines are foreign libraries. They are the parameters `read`, `enhanced` and `plain`.
- `fetch`, JSON decoding and the `Promise.all` of the two fetchers are I/O and concurrency. Responses are `Fetched` values, and the two fetches are taken as independent.
- Date parsing and formatting are host and locale behaviour: `getFullYear`, `toLocaleString` month names, `toUTCString` and `toISOString`. They are the parameters `calendar`, `utcString`, `epochMillis` and `today`. Front-matter dates that YAML turns into `Date` objects are treated as strings.
- PostsApi.Get: `parseInt` returns a JavaScript Number, but the model returns an exact integer. The source rounds a page above 2^53 (`?page=9007199254740993` is reported as `currentPage` 9007199254740992) and turns a very long digit string into `Infinity`, which JSON writes as `null`. Neither rounding nor overflow is modelled.
- JsString.ParseInt: same Number rounding and overflow as above, left out for the same reason.
- Posts.GetSortedPostsData: the order among posts with equal date strings is left open. The comparator never returns 0, so that order is up to the engine's sort.
- Social.GetAllSocialPosts: timestamps are compared as already-parsed integers. A timestamp that parses to NaN makes the source's comparator inconsistent, and that case is not modelled. The order among equal instants is left open.
- Strings are sequences of characters. JavaScript compares and indexes UTF-16 code units, and surrogate pairs are not distinguished here.
- `undefined` and `null` are both `None`.
- Front-matter values are taken to have the expected types. Examples not modelled: a truthy non-string excerpt, or a `tags` value that is not a list.
- Exceptions thrown inside the normalisers are not modelled. For example, a `null` feed item or a null media attachment would make the source's `try` return `[]`.
- `path.join` normalisation of an id such as `../x` is not modelled. The file looked up is `id + ".md"`.
- `encodeURIComponent` of the handle in the Bluesky feed URL is folded into the `getAuthorFeed` parameter.
- The sitemap's `lastmod` is read from the clock once per URL in the source. The model uses one `today` for all URLs.
- The source's `catch` around the sitemap generation exits the process and is not modelled.
- Rendering outside the core is out of scope: the JSX of every page, `middleware.js` response headers, the navigation bar, the tag filter, the excerpt component, page metadata, `next.config.mjs` and `config.js`.
- The IntersectionObserver registration is left out. Its callback is `Intersect`.
- The transient `loading = true` state during a load is not observable between the two setters. Only its final value is stated.

## Findings

| source | as written | input that shows it | evidently intended | confidence | as-written member | corrected member |
|---|---|---|---|---|---|---|
| app/components/HomePage.js:15-44 | the pager starts with every initial post on screen, and the first scroll shows `slice(0, 10)` | eleven posts: 11 are shown, and after the first scroll only 10 | the first page shows five posts, and each scroll adds up to five more without removing any | medium, not executed | Home.FirstScrollShrinks | Home.PagedHomeFeed.Scroll |
| scripts/generate-sitemap.js:83 | the home priority goes to the URL equal to the configured domain, which keeps its trailing slash, while every URL is built from the stripped base | `NEXT_PUBLIC_SITE_URL=https://example.com/`: the home page `https://example.com` gets `0.7` and no entry gets `1.0` | the home page gets priority `1.0` whether or not the domain ends in `/` | high, not executed | Sitemap.HomePageDemotedExample | Sitemap.HomePageAloneOnTop |
