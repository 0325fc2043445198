/**
 * `GET /api/posts?page=N`: one page of five posts out of the sorted listing.
 *
 * The query parameter is `raw` (`None` when absent); the listing is handed in as
 * `allPosts`, a `Failure` standing for an exception thrown while reading it.
 */
module PostsApi {
  import opened Wrappers
  import opened JsString

  /** Posts per page. */
  const Limit: nat := 5

  const InvalidPageMessage := "Invalid page parameter. Page must be a positive integer."
  const OutOfRangeMessage := "Page out of range"
  const InternalErrorMessage := "Internal server error"

  /** The four answers of the handler, each with the fields of its JSON body. */
  datatype Response<T> =
    | Page(posts: seq<T>, total: nat, currentPage: int, totalPages: nat)
    | InvalidPage
    | OutOfRange(totalPages: nat, currentPage: int)
    | InternalError(message: string)

  function Status<T>(r: Response<T>): int {
    match r
    case Page(_, _, _, _) => 200
    case InvalidPage => 400
    case OutOfRange(_, _) => 400
    case InternalError(_) => 500
  }

  /** The `error` field of the JSON body; a page has none. */
  function ErrorField<T>(r: Response<T>): (e: Option<string>)
    ensures e.None? <==> Status(r) == 200
  {
    match r
    case Page(_, _, _, _) => None
    case InvalidPage => Some(InvalidPageMessage)
    case OutOfRange(_, _) => Some(OutOfRangeMessage)
    case InternalError(_) => Some(InternalErrorMessage)
  }

  /** `parseInt(searchParams.get("page") || "1", 10)`; `None` is `NaN`. */
  function PageParam(raw: Option<string>): (page: Option<int>)
    ensures !Truthy(raw) ==> page == Some(1)
    ensures Truthy(raw) ==> page == ParseInt(raw.value)
  {
    assert "1" == ['1'];
    ParseIntDigit('1');
    ParseInt(if Truthy(raw) then raw.value else "1")
  }

  /** `Math.ceil(totalPosts / limit)`. */
  function TotalPages(total: nat): (n: nat)
    ensures total <= n * Limit
    ensures n > 0 ==> (n - 1) * Limit < total
    ensures n == 0 <==> total == 0
  {
    (total + Limit - 1) / Limit
  }

  /** `s.slice(start, end)` for `0 <= start <= end`: indices past the end are cut off. */
  function Slice<T>(s: seq<T>, start: nat, end: nat): (r: seq<T>)
    requires start <= end
    ensures |r| <= end - start
    ensures start <= |s| ==> |r| == (if end <= |s| then end else |s|) - start
    ensures forall i :: 0 <= i < |r| ==> start + i < |s| && r[i] == s[start + i]
  {
    if |s| <= start then [] else if |s| <= end then s[start..] else s[start..end]
  }

  predicate ValidPage(page: Option<int>) {
    page.Some? && page.value >= 1
  }

  /** The handler. */
  function Get<T>(raw: Option<string>, allPosts: Result<seq<T>, string>): (r: Response<T>)
    ensures r.InvalidPage? <==> !ValidPage(PageParam(raw))
    ensures ValidPage(PageParam(raw)) ==> r == Respond(PageParam(raw).value, allPosts)
  {
    var page := PageParam(raw);
    if !ValidPage(page) then InvalidPage else Respond(page.value, allPosts)
  }

  /** What the handler answers for a valid page number. */
  function Respond<T>(page: int, allPosts: Result<seq<T>, string>): (r: Response<T>)
    requires page >= 1
    ensures r.InternalError? <==> allPosts.Failure?
    ensures r.InternalError? ==> r.message == allPosts.error
    ensures r.OutOfRange? <==> allPosts.Success? && 0 < TotalPages(|allPosts.value|) < page
    ensures r.OutOfRange? ==> r.totalPages == TotalPages(|allPosts.value|) && r.currentPage == page
    ensures !r.InvalidPage?
    ensures r.Page? ==>
              && allPosts.Success?
              && r.currentPage == page
              && r.total == |allPosts.value|
              && r.totalPages == TotalPages(|allPosts.value|)
              && |r.posts| <= Limit
              && forall i :: 0 <= i < |r.posts| ==>
                   (page - 1) * Limit + i < |allPosts.value|
                   && r.posts[i] == allPosts.value[(page - 1) * Limit + i]
    ensures r.Page? ==> r.posts == Slice(allPosts.value, (page - 1) * Limit, (page - 1) * Limit + Limit)
  {
    match allPosts
    case Failure(message) => InternalError(message)
    case Success(posts) =>
      var totalPages := TotalPages(|posts|);
      if page > totalPages && totalPages > 0 then OutOfRange(totalPages, page)
      else
        var startIndex := (page - 1) * Limit;
        Page(Slice(posts, startIndex, startIndex + Limit), |posts|, page, totalPages)
  }

  /** A page that is served holds all five posts of its window, fewer only on the last page. */
  lemma PageIsFull<T>(page: int, all: seq<T>)
    requires 1 <= page < TotalPages(|all|)
    ensures Respond(page, Success(all)).Page?
    ensures |Respond(page, Success(all)).posts| == Limit
  {
  }

  /** Without posts every valid page is served, empty, rather than rejected as out of range. */
  lemma EmptyListingServesEveryPage<T>(page: int)
    requires page >= 1
    ensures Respond<T>(page, Success([])) == Page([], 0, page, 0)
  {
  }

  /** A missing or empty parameter means page 1. */
  lemma DefaultPage()
    ensures PageParam(None) == Some(1)
    ensures PageParam(Some("")) == Some(1)
  {
    assert PageParam(None) == ParseInt("1") && PageParam(Some("")) == ParseInt("1");
    assert "1" == ['1'];
    ParseIntDigit('1');
  }

  /** `?page=2.5` requests page 2: the digits stop at the dot. */
  lemma FractionTruncated()
    ensures PageParam(Some("2.5")) == Some(2)
  {
    assert DecimalString(2) == "2";
    PageParamOfDecimal(2, ".5");
    assert DecimalString(2) + ".5" == "2.5";
  }

  /** `?page=abc` is rejected. */
  lemma LettersRejected<T>(all: Result<seq<T>, string>)
    ensures Get(Some("abc"), all) == InvalidPage
  {
    var raw := "abc";
    assert raw[0] == 'a';
    ParseIntNoDigit(raw);
    assert PageParam(Some(raw)) == None;
  }

  /** `?page=0` is rejected. */
  lemma ZeroRejected<T>(all: Result<seq<T>, string>)
    ensures Get(Some("0"), all) == InvalidPage
  {
    PageNumberParses(0);
    assert DecimalString(0) == "0";
  }

  /** `?page=%203` requests page 3: leading whitespace is skipped. */
  lemma LeadingSpaceSkipped()
    ensures PageParam(Some(" 3")) == Some(3)
  {
    PageParamOfSpacedDigit(' ', '3');
  }

  lemma PageParamOfSpacedDigit(w: char, c: char)
    requires IsWhitespace(w) && IsDigit(c)
    ensures PageParam(Some([w, c])) == Some(DigitValue(c))
  {
    assert [w, c] == [w] + [c];
    ParseIntSkipsWhitespace(w, [c]);
    ParseIntDigit(c);
  }

  /** The decimal writing of any page number, optionally followed by a non-digit suffix, requests that page. */
  lemma PageParamOfDecimal(p: int, rest: string)
    requires rest == [] || !IsDigit(rest[0])
    ensures PageParam(Some(DecimalString(p) + rest)) == Some(p)
  {
    ParseIntDecimal(p, rest);
    NatDigitsNonEmpty(p);
  }

  lemma NatDigitsNonEmpty(p: int)
    ensures |DecimalString(p)| >= 1
  {
    if p < 0 {
      assert DecimalString(p) == "-" + NatDigits(-p);
    }
  }

  /** The posts that page `p` serves, or none when it is refused. */
  function PageOf<T>(all: seq<T>, p: int): seq<T> {
    if p < 1 then []
    else match Respond(p, Success(all))
      case Page(posts, _, _, _) => posts
      case _ => []
  }

  /** `PageOf(all, p)` is what the handler answers to the request `?page=<p>`. */
  lemma PageOfRequested<T>(all: seq<T>, p: int)
    ensures p >= 1 ==> Get(Some(DecimalString(p)), Success(all)) == Respond(p, Success(all))
    ensures Get(Some(DecimalString(p)), Success(all)).Page? ==> PageOf(all, p) == Get(Some(DecimalString(p)), Success(all)).posts
  {
    PageNumberParses(p);
  }

  /** Pages 1 to `n`, one after the other. */
  function PagesUpTo<T>(all: seq<T>, n: nat): seq<T> {
    if n == 0 then [] else PagesUpTo(all, n - 1) + PageOf(all, n)
  }

  /** Requesting pages 1, 2, ... up to `totalPages` returns every post once, in order. */
  lemma PagesCoverListing<T>(all: seq<T>)
    ensures PagesUpTo(all, TotalPages(|all|)) == all
  {
    var n := TotalPages(|all|);
    PagesPrefix(all, n);
  }

  lemma {:induction false} PagesPrefix<T>(all: seq<T>, n: nat)
    requires n <= TotalPages(|all|)
    ensures n * Limit <= |all| ==> PagesUpTo(all, n) == all[..n * Limit]
    ensures n * Limit > |all| ==> PagesUpTo(all, n) == all
  {
    if n > 0 {
      PagesPrefix(all, n - 1);
      PageWindow(all, n);
      var start := (n - 1) * Limit;
      assert start + Limit == n * Limit;
      assert PagesUpTo(all, n - 1) == all[..start];
      if n * Limit <= |all| {
        JoinSlices(all, start, n * Limit);
      } else {
        JoinSlices(all, start, |all|);
        assert all[..|all|] == all;
      }
    }
  }

  lemma JoinSlices<T>(s: seq<T>, i: nat, j: nat)
    requires i <= j <= |s|
    ensures s[..i] + s[i..j] == s[..j]
  {
  }

  /** Page `n` of the listing, for `1 <= n <= totalPages`, is the window of five posts from `(n - 1) * 5`. */
  lemma PageWindow<T>(all: seq<T>, n: nat)
    requires 1 <= n <= TotalPages(|all|)
    ensures (n - 1) * Limit <= |all|
    ensures n * Limit <= |all| ==> PageOf(all, n) == all[(n - 1) * Limit..n * Limit]
    ensures n * Limit > |all| ==> PageOf(all, n) == all[(n - 1) * Limit..]
  {
    PageOfIsSlice(all, n);
    var s := (n - 1) * Limit;
    if n * Limit <= |all| {
      assert Slice(all, s, n * Limit) == all[s..n * Limit];
    } else {
      assert Slice(all, s, n * Limit) == all[s..];
    }
  }

  lemma PageOfIsSlice<T>(all: seq<T>, n: nat)
    requires 1 <= n <= TotalPages(|all|)
    ensures (n - 1) * Limit <= |all|
    ensures PageOf(all, n) == Slice(all, (n - 1) * Limit, n * Limit)
  {
    assert (n - 1) * Limit + Limit == n * Limit;
  }

  /** `String(n)` as the query parameter requests page `n`. */
  lemma PageNumberParses(n: int)
    ensures PageParam(Some(DecimalString(n))) == Some(n)
  {
    PageParamOfDecimal(n, "");
    assert DecimalString(n) + "" == DecimalString(n);
  }

  /** Whether a page parameter is rejected does not depend on the posts. */
  lemma InvalidPageIndependentOfPosts<T>(raw: Option<string>, a: Result<seq<T>, string>, b: Result<seq<T>, string>)
    ensures Get(raw, a).InvalidPage? == Get(raw, b).InvalidPage?
  {
  }
}
