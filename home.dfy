/**
 * The home page's infinite-scroll pager: `page` counts how often the bottom of
 * the list came into view, `posts` is what is on screen, `loading` flags a load
 * in progress. The intersection observer's callback is `Intersect`; the effect
 * that runs when `page` changes is `Load`.
 */
module Home {

  /** Posts per page. */
  const Limit: nat := 5

  /** How many posts pages 1 to `page` hold together: `slice(0, page * limit)`. */
  function Shown(page: nat, n: nat): (k: nat)
    ensures k <= n && k <= page * Limit
    ensures k == n || k == page * Limit
    ensures k < n ==> k == page * Limit
  {
    if page * Limit < n then page * Limit else n
  }

  /** The pager as written: it starts with every post on screen. */
  class HomeFeed<T> {
    const initialPosts: seq<T>
    var posts: seq<T>
    var page: nat
    var loading: bool

    /** What the screen holds once the load for `page` has run. */
    ghost predicate Settled()
      reads this
    {
      page >= 1 && !loading
      && (page == 1 ==> posts == initialPosts)
      && (page > 1 ==> posts == initialPosts[..Shown(page, |initialPosts|)])
    }

    constructor(initialPosts: seq<T>)
      ensures this.initialPosts == initialPosts
      ensures posts == initialPosts && page == 1 && !loading
      ensures Settled()
    {
      this.initialPosts := initialPosts;
      posts := initialPosts;
      page := 1;
      loading := false;
    }

    /** `setPage((prev) => prev + 1)`. */
    method Intersect()
      modifies this
      ensures page == old(page) + 1
      ensures posts == old(posts) && loading == old(loading)
    {
      page := page + 1;
    }

    /** The effect on `page`: nothing on page 1, otherwise show the first `page * 5` posts. */
    method Load()
      modifies this
      ensures page == old(page)
      ensures old(page) == 1 ==> posts == old(posts) && loading == old(loading)
      ensures old(page) != 1 ==> posts == initialPosts[..Shown(page, |initialPosts|)] && !loading
    {
      if page == 1 {
        return;
      }
      loading := true;
      var newPosts := initialPosts[..Shown(page, |initialPosts|)];
      posts := newPosts;
      loading := false;
    }

    /** Reaching the bottom of the list: the callback, then the effect it triggers. */
    method Scroll()
      requires Settled()
      modifies this
      ensures Settled()
      ensures page == old(page) + 1
      ensures posts == initialPosts[..Shown(page, |initialPosts|)]
    {
      Intersect();
      Load();
    }
  }

  /** With eleven posts the first scroll takes the eleventh off the screen. */
  method FirstScrollShrinks() returns (before: nat, after: nat)
    ensures before == 11 && after == 10
  {
    var feed := new HomeFeed<int>([1, 2, 3, 4, 5, 6, 7, 8, 9, 10, 11]);
    before := |feed.posts|;
    feed.Scroll();
    after := |feed.posts|;
  }

  /** The pager starting from the first page's posts, so that scrolling only adds posts. */
  class PagedHomeFeed<T> {
    const initialPosts: seq<T>
    var posts: seq<T>
    var page: nat
    var loading: bool

    ghost predicate Settled()
      reads this
    {
      page >= 1 && !loading && posts == initialPosts[..Shown(page, |initialPosts|)]
    }

    constructor(initialPosts: seq<T>)
      ensures this.initialPosts == initialPosts
      ensures posts == initialPosts[..Shown(1, |initialPosts|)] && page == 1
      ensures Settled()
    {
      this.initialPosts := initialPosts;
      posts := initialPosts[..Shown(1, |initialPosts|)];
      page := 1;
      loading := false;
    }

    method Intersect()
      modifies this
      ensures page == old(page) + 1
      ensures posts == old(posts) && loading == old(loading)
    {
      page := page + 1;
    }

    method Load()
      modifies this
      ensures page == old(page)
      ensures old(page) == 1 ==> posts == old(posts) && loading == old(loading)
      ensures old(page) != 1 ==> posts == initialPosts[..Shown(page, |initialPosts|)] && !loading
    {
      if page == 1 {
        return;
      }
      loading := true;
      posts := initialPosts[..Shown(page, |initialPosts|)];
      loading := false;
    }

    /** Each scroll keeps what is shown and adds the next page, until every post is shown. */
    method Scroll()
      requires Settled()
      modifies this
      ensures Settled()
      ensures page == old(page) + 1
      ensures old(posts) <= posts
      ensures |posts| == if |old(posts)| + Limit < |initialPosts| then |old(posts)| + Limit else |initialPosts|
    {
      Intersect();
      Load();
    }
  }

  /** With eleven posts the corrected pager shows 5, then 10, then 11. */
  method PagedScrollsGrow() returns (shown: seq<nat>)
    ensures shown == [5, 10, 11]
  {
    var feed := new PagedHomeFeed<int>([1, 2, 3, 4, 5, 6, 7, 8, 9, 10, 11]);
    shown := [|feed.posts|];
    feed.Scroll();
    shown := shown + [|feed.posts|];
    feed.Scroll();
    shown := shown + [|feed.posts|];
  }
}
