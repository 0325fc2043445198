/**
 * The markdown post reader: the listing of all posts (`getSortedPostsData`) and
 * the lookup and rendering of one post (`getPostData`).
 *
 * The filesystem and gray-matter together are the parameter `read`, which maps a
 * file name of the posts directory to its front matter and body; `fileExists` says
 * whether a file is there; `calendar` stands for `new Date(date)` read through
 * `getFullYear` and `toLocaleString(month: "long")`; the two remark pipelines
 * are `enhanced` (with embeds) and `plain` (without), each of which may fail.
 */
module Posts {
  import opened Wrappers
  import opened JsString
  import opened Seqs
  import Sorting

  /** The front-matter keys the reader uses; `None` is an absent key. */
  datatype FrontMatter = FrontMatter(
    title: Option<string>,
    date: string,
    year: Option<int>,
    month: Option<string>,
    tags: Option<seq<string>>,
    excerpt: Option<string>)

  /** gray-matter's split of a markdown file into front matter and body. */
  datatype Matter = Matter(data: FrontMatter, content: string)

  /** What the host calendar makes of a date string. */
  datatype CalendarDate = CalendarDate(year: int, month: string)

  /** A post as the listing returns it: metadata only, no HTML. */
  datatype Post = Post(
    id: string,
    title: Option<string>,
    date: string,
    year: int,
    month: string,
    tags: seq<string>,
    excerpt: Option<string>)

  predicate IsMarkdown(fileName: string) {
    EndsWith(fileName, ".md")
  }

  /** `fileName.replace(/\.md$/, "")` on a markdown file name. */
  function PostId(fileName: string): (id: string)
    requires IsMarkdown(fileName)
    ensures id + ".md" == fileName
  {
    StripSuffix(fileName, ".md")
  }

  /** Different markdown file names give different ids. */
  lemma PostIdInjective(a: string, b: string)
    requires IsMarkdown(a) && IsMarkdown(b) && a != b
    ensures PostId(a) != PostId(b)
  {
    assert PostId(a) + ".md" == a && PostId(b) + ".md" == b;
  }

  predicate NonBlank(line: string) {
    Trim(line) != ""
  }

  /** `content.split("\n").filter((line) => line.trim() !== "")[0]`: the first line
      that is not all whitespace, `None` (undefined) when there is none. */
  function FirstNonBlankLine(content: string): (line: Option<string>)
    ensures FirstIn(Split(content, '\n'), line)
  {
    var lines := Split(content, '\n');
    var line := FirstWhere(lines, NonBlank);
    FirstWhereIsFirst(lines, line);
    line
  }

  lemma FirstWhereIsFirst(lines: seq<string>, line: Option<string>)
    requires line == FirstWhere(lines, NonBlank)
    ensures FirstIn(lines, line)
  {
    if line.Some? {
      var k :| 0 <= k < |lines| && lines[k] == line.value && NonBlank(lines[k]) && forall i :: 0 <= i < k ==> !NonBlank(lines[i]);
    }
  }

  /** `line` is the first non-blank entry of `lines`, `None` when every entry is blank. */
  ghost predicate FirstIn(lines: seq<string>, line: Option<string>) {
    && (line.None? <==> forall i :: 0 <= i < |lines| ==> !NonBlank(lines[i]))
    && (line.Some? ==> exists k :: 0 <= k < |lines| && lines[k] == line.value && NonBlank(lines[k])
                         && forall i :: 0 <= i < k ==> !NonBlank(lines[i]))
  }

  /** One markdown file of the listing turned into a post (lib/posts.js, the `map` callback). */
  function PostOf(fileName: string, read: string -> Matter, calendar: string -> CalendarDate): (p: Post)
    requires IsMarkdown(fileName)
    ensures var m := read(fileName);
            && p.id + ".md" == fileName
            && p.title == m.data.title && p.date == m.data.date
            && p.year == calendar(m.data.date).year && p.month == calendar(m.data.date).month
            && p.tags == (if m.data.tags.Some? then m.data.tags.value else [])
            && (Truthy(m.data.excerpt) ==> p.excerpt == m.data.excerpt)
            && (!Truthy(m.data.excerpt) ==> p.excerpt == FirstNonBlankLine(m.content))
  {
    var m := read(fileName);
    var when := calendar(m.data.date);
    var tags := if m.data.tags.Some? then m.data.tags.value else [];
    var excerpt := if Truthy(m.data.excerpt) then m.data.excerpt else FirstNonBlankLine(m.content);
    Post(PostId(fileName), m.data.title, m.data.date, when.year, when.month, tags, excerpt)
  }

  /** The posts before sorting: one per markdown file name, in directory order. */
  function Listing(fileNames: seq<string>, read: string -> Matter, calendar: string -> CalendarDate): (posts: seq<Post>)
    ensures var md := Filter(fileNames, IsMarkdown);
            && |posts| == |md|
            && forall i :: 0 <= i < |posts| ==> posts[i] == PostOf(md[i], read, calendar)
  {
    var md := Filter(fileNames, IsMarkdown);
    seq(|md|, i requires 0 <= i < |md| => PostOf(md[i], read, calendar))
  }

  /** Only `.md` names become posts: there are as many posts as such names, each id being its name minus `.md`. */
  lemma ListingIds(fileNames: seq<string>, read: string -> Matter, calendar: string -> CalendarDate)
    ensures var posts := Listing(fileNames, read, calendar);
            && |posts| == |Filter(fileNames, IsMarkdown)|
            && forall i :: 0 <= i < |posts| ==> posts[i].id + ".md" in fileNames
    ensures NoDuplicates(fileNames) ==> NoDuplicates(Ids(Listing(fileNames, read, calendar)))
  {
    var posts := Listing(fileNames, read, calendar);
    var md := Filter(fileNames, IsMarkdown);
    forall i | 0 <= i < |posts| ensures posts[i].id + ".md" in fileNames {
      assert md[i] in md;
    }
    if NoDuplicates(fileNames) {
      FilterNoDuplicates(fileNames, IsMarkdown);
      forall i, j | 0 <= i < j < |posts| ensures posts[i].id != posts[j].id {
        PostIdInjective(md[i], md[j]);
      }
    }
  }

  function Ids(posts: seq<Post>): (ids: seq<string>)
    ensures |ids| == |posts| && forall i :: 0 <= i < |posts| ==> ids[i] == posts[i].id
  {
    seq(|posts|, i requires 0 <= i < |posts| => posts[i].id)
  }

  /** The comparator `(a, b) => (a.date < b.date ? 1 : -1)` puts `p` after `q` when `p`'s date is the smaller string. */
  predicate DateBelow(p: Post, q: Post) {
    Less(p.date, q.date)
  }

  lemma DateBelowIsStrictWeakOrder()
    ensures Sorting.StrictWeakOrder(DateBelow)
  {
    forall p: Post, q: Post ensures DateBelow(p, q) ==> !DateBelow(q, p) {
      LessAsymmetric(p.date, q.date);
    }
    forall p: Post, q: Post, r: Post ensures !DateBelow(p, q) && !DateBelow(q, r) ==> !DateBelow(p, r) {
      NotLessTransitive(p.date, q.date, r.date);
    }
  }

  /** `getSortedPostsData`: every `.md` file as a post, newest date string first. */
  method GetSortedPostsData(fileNames: seq<string>, read: string -> Matter, calendar: string -> CalendarDate)
    returns (posts: seq<Post>)
    ensures multiset(posts) == multiset(Listing(fileNames, read, calendar))
    ensures |posts| == |Filter(fileNames, IsMarkdown)|
    ensures Sorting.Descending(posts, DateBelow)
    ensures NoDuplicates(fileNames) ==> NoDuplicates(Ids(posts))
  {
    var allPostsData := Listing(fileNames, read, calendar);
    DateBelowIsStrictWeakOrder();
    posts := Sorting.SortDescending(allPostsData, DateBelow);
    ListingIds(fileNames, read, calendar);
    if NoDuplicates(fileNames) {
      PermutationKeepsIds(allPostsData, posts);
    }
  }

  /** A rearrangement of posts with distinct ids has distinct ids. */
  lemma PermutationKeepsIds(a: seq<Post>, b: seq<Post>)
    requires multiset(a) == multiset(b) && NoDuplicates(Ids(a))
    ensures NoDuplicates(Ids(b))
  {
    assert NoDuplicates(a) by {
      forall i, j | 0 <= i < j < |a| ensures a[i] != a[j] {
        assert Ids(a)[i] != Ids(a)[j];
      }
    }
    PermutationNoDuplicates(a, b);
    forall i, j | 0 <= i < j < |b| ensures b[i].id != b[j].id {
      assert b[i] in multiset(a) && b[j] in multiset(a);
      var k :| 0 <= k < |a| && a[k] == b[i];
      var l :| 0 <= l < |a| && a[l] == b[j];
      if k != l {
        assert Ids(a)[k] != Ids(a)[l] || k > l;
        if k > l {
          assert Ids(a)[l] != Ids(a)[k];
        }
      }
    }
  }

  // ---------------------------------------------------------------------------
  // getPostData

  datatype PostError = InvalidPostId | PostNotFound(id: string) | RenderFailed(message: string)

  /** The `message` of the error `getPostData` throws. */
  function ErrorMessage(e: PostError): (message: string)
    ensures e.InvalidPostId? ==> message == "Invalid post ID"
    ensures e.PostNotFound? ==> |message| >= 16 && message[..16] == "Post not found: " && message[16..] == e.id
  {
    match e
    case InvalidPostId => "Invalid post ID"
    case PostNotFound(id) =>
      var lead := "Post not found: ";
      assert |lead| == 16;
      assert (lead + id)[..16] == lead && (lead + id)[16..] == id;
      lead + id
    case RenderFailed(message) => message
  }

  /** A rendered post. `year` and `month` are the front matter's own keys. */
  datatype RenderedPost = RenderedPost(
    id: string,
    contentHtml: string,
    title: Option<string>,
    date: string,
    year: Option<int>,
    month: Option<string>,
    tags: seq<string>)

  /** The two-stage pipeline: the embed-resolving render, and on any failure the plain one. */
  function Render(content: string, enhanced: string -> Result<string, string>, plain: string -> Result<string, string>)
    : (r: Result<string, string>)
    ensures enhanced(content).Success? ==> r == enhanced(content)
    ensures enhanced(content).Failure? ==> r == plain(content)
  {
    match enhanced(content)
    case Success(html) => Success(html)
    case Failure(_) => plain(content)
  }

  /** `getPostData(id)`. `id` is `None` when the argument is not a string. */
  function GetPostData(
    id: Option<string>,
    fileExists: string -> bool,
    read: string -> Matter,
    enhanced: string -> Result<string, string>,
    plain: string -> Result<string, string>)
    : (r: Result<RenderedPost, PostError>)
    ensures !Truthy(id) ==> r == Failure(InvalidPostId)
    ensures Truthy(id) && !fileExists(id.value + ".md") ==> r == Failure(PostNotFound(id.value))
    ensures r.Success? ==>
              && Truthy(id) && fileExists(id.value + ".md")
              && var m := read(id.value + ".md");
                 && Render(m.content, enhanced, plain) == Success(r.value.contentHtml)
                 && r.value.id == id.value
                 && r.value.title == m.data.title && r.value.date == m.data.date
                 && r.value.year == m.data.year && r.value.month == m.data.month
                 && r.value.tags == (if m.data.tags.Some? then m.data.tags.value else [])
  {
    if !Truthy(id) then Failure(InvalidPostId)
    else
      var fileName := id.value + ".md";
      if !fileExists(fileName) then Failure(PostNotFound(id.value))
      else
        var m := read(fileName);
        match Render(m.content, enhanced, plain)
        case Failure(message) => Failure(RenderFailed(message))
        case Success(html) =>
          Success(RenderedPost(id.value, html, m.data.title, m.data.date, m.data.year, m.data.month,
                               if m.data.tags.Some? then m.data.tags.value else []))
  }

  /** Whether the embed step succeeds or falls back changes only `contentHtml`. */
  lemma FallbackKeepsMetadata(
    id: Option<string>, fileExists: string -> bool, read: string -> Matter,
    enhanced1: string -> Result<string, string>, enhanced2: string -> Result<string, string>,
    plain: string -> Result<string, string>)
    requires GetPostData(id, fileExists, read, enhanced1, plain).Success?
    requires GetPostData(id, fileExists, read, enhanced2, plain).Success?
    ensures var a := GetPostData(id, fileExists, read, enhanced1, plain).value;
            var b := GetPostData(id, fileExists, read, enhanced2, plain).value;
            a.(contentHtml := b.contentHtml) == b
  {
  }

  /** A post lookup fails exactly when the id is invalid, the file is missing, or both renders fail. */
  lemma GetPostDataFails(
    id: Option<string>, fileExists: string -> bool, read: string -> Matter,
    enhanced: string -> Result<string, string>, plain: string -> Result<string, string>)
    ensures GetPostData(id, fileExists, read, enhanced, plain).Failure? <==>
              || !Truthy(id)
              || !fileExists(id.value + ".md")
              || (enhanced(read(id.value + ".md").content).Failure? && plain(read(id.value + ".md").content).Failure?)
  {
  }
}
