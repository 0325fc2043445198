/**
 * The archive page: the year, month and tag options offered for the posts,
 * and the filtered list the selectors produce.
 */
module Archive {
  import opened JsString
  import opened Seqs
  import Sorting
  import Posts

  function YearsOf(posts: seq<Posts.Post>): (ys: seq<int>)
    ensures |ys| == |posts| && forall i :: 0 <= i < |posts| ==> ys[i] == posts[i].year
  {
    seq(|posts|, i requires 0 <= i < |posts| => posts[i].year)
  }

  function MonthsOf(posts: seq<Posts.Post>): (ms: seq<string>)
    ensures |ms| == |posts| && forall i :: 0 <= i < |posts| ==> ms[i] == posts[i].month
  {
    seq(|posts|, i requires 0 <= i < |posts| => posts[i].month)
  }

  function TagListsOf(posts: seq<Posts.Post>): (tss: seq<seq<string>>)
    ensures |tss| == |posts| && forall i :: 0 <= i < |posts| ==> tss[i] == posts[i].tags
  {
    seq(|posts|, i requires 0 <= i < |posts| => posts[i].tags)
  }

  /** The comparator `(a, b) => b - a` puts `a` after `b` when `a` is the smaller year. */
  predicate YearBelow(a: int, b: int) {
    a < b
  }

  lemma YearBelowIsStrictWeakOrder()
    ensures Sorting.StrictWeakOrder(YearBelow)
  {
  }

  /** The year options: each year of the posts once, newest first. */
  method Years(posts: seq<Posts.Post>) returns (years: seq<int>)
    ensures NoDuplicates(years)
    ensures forall y :: y in years <==> exists i :: 0 <= i < |posts| && posts[i].year == y
    ensures forall i, j :: 0 <= i < j < |years| ==> years[i] > years[j]
  {
    var distinct := Distinct(YearsOf(posts));
    YearBelowIsStrictWeakOrder();
    years := Sorting.SortDescending(distinct, YearBelow);
    PermutationNoDuplicates(distinct, years);
    forall y ensures y in years <==> y in distinct {
      assert y in years <==> y in multiset(years);
      assert y in distinct <==> y in multiset(distinct);
    }
    forall y ensures y in YearsOf(posts) <==> exists i :: 0 <= i < |posts| && posts[i].year == y {
      if y in YearsOf(posts) {
        var i :| 0 <= i < |posts| && YearsOf(posts)[i] == y;
      }
    }
  }

  /** The month options: each month name once, in order of first appearance. */
  function Months(posts: seq<Posts.Post>): (months: seq<string>)
    ensures NoDuplicates(months)
    ensures forall m :: m in months <==> exists i :: 0 <= i < |posts| && posts[i].month == m
  {
    var months := Distinct(MonthsOf(posts));
    assert forall m :: m in MonthsOf(posts) <==> exists i :: 0 <= i < |posts| && MonthsOf(posts)[i] == m;
    months
  }

  /** Month options come in the order their first post comes. */
  lemma MonthsInFirstAppearanceOrder(posts: seq<Posts.Post>)
    ensures forall i, j :: 0 <= i < j < |Months(posts)| ==>
              IndexOf(MonthsOf(posts), Months(posts)[i]) < IndexOf(MonthsOf(posts), Months(posts)[j])
  {
    DistinctFirstAppearanceOrder(MonthsOf(posts));
  }

  /** The tag options: every tag of every post, each once, in order of first appearance. */
  function Tags(posts: seq<Posts.Post>): (tags: seq<string>)
    ensures NoDuplicates(tags)
    ensures forall t :: t in tags <==> t in Flatten(TagListsOf(posts))
  {
    Distinct(Flatten(TagListsOf(posts)))
  }

  /** A tag is offered exactly when some post carries it. */
  lemma TagsAreUnion(posts: seq<Posts.Post>, t: string)
    ensures t in Tags(posts) <==> exists i :: 0 <= i < |posts| && t in posts[i].tags
  {
    InFlatten(TagListsOf(posts), t);
  }

  lemma TagsInFirstAppearanceOrder(posts: seq<Posts.Post>)
    ensures forall i, j :: 0 <= i < j < |Tags(posts)| ==>
              IndexOf(Flatten(TagListsOf(posts)), Tags(posts)[i]) < IndexOf(Flatten(TagListsOf(posts)), Tags(posts)[j])
  {
    DistinctFirstAppearanceOrder(Flatten(TagListsOf(posts)));
  }

  /** A post passes the selectors when it agrees with every one that is not empty. */
  predicate Matches(p: Posts.Post, year: string, month: string, tag: string)
    ensures year == "" && month == "" && tag == "" ==> Matches(p, year, month, tag)
  {
    && (year == "" || DecimalString(p.year) == year)
    && (month == "" || p.month == month)
    && (tag == "" || tag in p.tags)
  }

  /** The filtered list: the posts that pass the selectors, in their order. */
  function Select(posts: seq<Posts.Post>, year: string, month: string, tag: string): (shown: seq<Posts.Post>)
    ensures |shown| <= |posts|
    ensures forall p :: p in shown <==> p in posts && Matches(p, year, month, tag)
  {
    Filter(posts, (p: Posts.Post) => Matches(p, year, month, tag))
  }

  /** With no selector set, nothing is filtered out. */
  lemma SelectNothing(posts: seq<Posts.Post>)
    ensures Select(posts, "", "", "") == posts
  {
    FilterKeepsAll(posts, (p: Posts.Post) => Matches(p, "", "", ""));
  }

  /** Choosing a year option keeps exactly the posts of that year. */
  lemma SelectYear(posts: seq<Posts.Post>, y: int, p: Posts.Post)
    ensures p in Select(posts, DecimalString(y), "", "") <==> p in posts && p.year == y
  {
    if p in posts && DecimalString(p.year) == DecimalString(y) {
      DecimalStringInjective(p.year, y);
    }
  }

  /** Different years are written differently. */
  lemma DecimalStringInjective(a: int, b: int)
    requires DecimalString(a) == DecimalString(b)
    ensures a == b
  {
    ParseIntDecimal(a, "");
    ParseIntDecimal(b, "");
    assert DecimalString(a) + "" == DecimalString(a);
    assert DecimalString(b) + "" == DecimalString(b);
  }

  /** Every offered option selects at least one post. */
  lemma OptionsAreInhabited(posts: seq<Posts.Post>, y: int, m: string, t: string)
    ensures (exists i :: 0 <= i < |posts| && posts[i].year == y) ==> Select(posts, DecimalString(y), "", "") != []
    ensures m in Months(posts) ==> Select(posts, "", m, "") != []
    ensures t in Tags(posts) ==> Select(posts, "", "", t) != []
  {
    if exists i :: 0 <= i < |posts| && posts[i].year == y {
      var i :| 0 <= i < |posts| && posts[i].year == y;
      SelectYear(posts, y, posts[i]);
    }
    if m in Months(posts) {
      MonthInhabited(posts, m);
    }
    if t in Tags(posts) {
      TagInhabited(posts, t);
    }
  }

  lemma MonthInhabited(posts: seq<Posts.Post>, m: string)
    requires m in Months(posts)
    ensures Select(posts, "", m, "") != []
  {
    var i :| 0 <= i < |posts| && posts[i].month == m;
    assert posts[i] in Select(posts, "", m, "");
  }

  lemma TagInhabited(posts: seq<Posts.Post>, t: string)
    requires t in Tags(posts)
    ensures Select(posts, "", "", t) != []
  {
    TagsAreUnion(posts, t);
    var i :| 0 <= i < |posts| && t in posts[i].tags;
    assert posts[i] in Select(posts, "", "", t);
  }

  /** The page's state: the posts it was given, the three selectors and the filtered list. */
  class ArchivePage {
    const posts: seq<Posts.Post>
    var filteredPosts: seq<Posts.Post>
    var year: string
    var month: string
    var tag: string

    ghost predicate Valid()
      reads this
    {
      filteredPosts == Select(posts, year, month, tag)
    }

    constructor(initialPosts: seq<Posts.Post>)
      ensures posts == initialPosts && filteredPosts == initialPosts
      ensures year == "" && month == "" && tag == ""
      ensures Valid()
    {
      posts := initialPosts;
      filteredPosts := initialPosts;
      year, month, tag := "", "", "";
      SelectNothing(initialPosts);
    }

    /** The filter effect: narrow the posts by each non-empty selector in turn. */
    method ApplyFilters()
      modifies this
      ensures year == old(year) && month == old(month) && tag == old(tag)
      ensures Valid()
    {
      var y, m, t := year, month, tag;
      var byYear := (p: Posts.Post) => y == "" || DecimalString(p.year) == y;
      var byYearMonth := (p: Posts.Post) => byYear(p) && (m == "" || p.month == m);
      var byAll := (p: Posts.Post) => Matches(p, y, m, t);

      var filtered := posts;
      if y != "" {
        var sameYear := (p: Posts.Post) => DecimalString(p.year) == y;
        filtered := Filter(filtered, sameYear);
        FilterExt(posts, sameYear, byYear);
      } else {
        FilterKeepsAll(posts, byYear);
      }
      assert filtered == Filter(posts, byYear);
      if m != "" {
        var sameMonth := (p: Posts.Post) => p.month == m;
        filtered := Filter(filtered, sameMonth);
        FilterTwice(posts, byYear, sameMonth, byYearMonth);
      } else {
        FilterExt(posts, byYear, byYearMonth);
      }
      assert filtered == Filter(posts, byYearMonth);
      if t != "" {
        var hasTag := (p: Posts.Post) => t in p.tags;
        filtered := Filter(filtered, hasTag);
        FilterTwice(posts, byYearMonth, hasTag, byAll);
      } else {
        FilterExt(posts, byYearMonth, byAll);
      }
      filteredPosts := filtered;
    }

    method SetYear(value: string)
      modifies this
      ensures year == value && month == old(month) && tag == old(tag)
      ensures Valid()
    {
      year := value;
      ApplyFilters();
    }

    method SetMonth(value: string)
      modifies this
      ensures month == value && year == old(year) && tag == old(tag)
      ensures Valid()
    {
      month := value;
      ApplyFilters();
    }

    method SetTag(value: string)
      modifies this
      ensures tag == value && year == old(year) && month == old(month)
      ensures Valid()
    {
      tag := value;
      ApplyFilters();
    }
  }
}
