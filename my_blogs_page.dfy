/** The author's list of their own posts: a status tab and a search box
    narrow the list, a sort order arranges a copy of it, and the delete
    handler forwards to the content store. */
module MyBlogsPage {
  import opened Wrappers
  import opened Seqs
  import opened Text
  import opened Blogs
  import opened BlogStore
  import Accounts

  /** The status tabs: "all", or one status. */
  datatype Tab = All | Only(status: Status)

  /** The sort orders, without "az" (see README). */
  datatype SortOrder = Recent | Oldest | MostViewed

  /** `getUserBlogs(user.id)`, or nothing when signed out. */
  function UserBlogs(user: Option<Accounts.User>, blogs: seq<Blog>): seq<Blog> {
    if user.Some? then OwnedBy(blogs, user.value.id) else []
  }

  /** The search test: the lower-cased query occurs in the lower-cased
      title or excerpt. */
  predicate MatchesQuery(b: Blog, query: string) {
    Includes(Lower(b.title), Lower(query)) || Includes(Lower(b.excerpt), Lower(query))
  }

  /** The callback of `userBlogs.filter`. */
  function Shown(tab: Tab, query: string): Blog -> bool {
    (b: Blog) => (tab.All? || b.status == tab.status) && (query == "" || MatchesQuery(b, query))
  }

  function Filtered(blogs: seq<Blog>, tab: Tab, query: string): seq<Blog> {
    Keep(blogs, Shown(tab, query))
  }

  /** The filtered list keeps, in their order, exactly the posts on the tab
      that match a non-empty query; an empty query filters nothing. */
  lemma FilteredSpec(blogs: seq<Blog>, tab: Tab, query: string)
    ensures var r := Filtered(blogs, tab, query);
            && IsSubseq(r, blogs)
            && (forall b :: multiset(r)[b] ==
                  if (tab.All? || b.status == tab.status) && (query == "" || MatchesQuery(b, query))
                  then multiset(blogs)[b] else 0)
            && forall b :: b in r <==>
                 b in blogs && (tab.All? || b.status == tab.status) && (query == "" || MatchesQuery(b, query))
  {
    KeepSpec(blogs, Shown(tab, query));
  }

  /** The "all" tab with an empty search shows every post. */
  lemma NoFilterShowsAll(blogs: seq<Blog>)
    ensures Filtered(blogs, All, "") == blogs
  {
    KeepAll(blogs, Shown(All, ""));
  }

  /** Narrowing the "all" list to one status gives that status's tab: the
      tab test and the search test compose. */
  lemma {:induction false} TabRefines(blogs: seq<Blog>, s: Status, query: string)
    ensures Keep(Filtered(blogs, All, query), (b: Blog) => b.status == s) == Filtered(blogs, Only(s), query)
  {
    if blogs != [] {
      TabRefines(blogs[1..], s, query);
    }
  }

  /** The key each comparator orders by, smallest first: `b - a` on a
      timestamp or counter is `a - b` on its negation. */
  function Key(order: SortOrder): Blog -> int {
    match order
    case Recent => (b: Blog) => -b.updatedAt
    case Oldest => (b: Blog) => b.updatedAt
    case MostViewed => (b: Blog) => -(b.views as int)
  }

  /** `[...filtered].sort(cmp)`: a sorted copy, the filtered list itself is
      a value and stays as it was. */
  function Sorted(filtered: seq<Blog>, order: SortOrder): (r: seq<Blog>)
    ensures multiset(r) == multiset(filtered)
    ensures order == Recent ==> forall i, j :: 0 <= i < j < |r| ==> r[i].updatedAt >= r[j].updatedAt
    ensures order == Oldest ==> forall i, j :: 0 <= i < j < |r| ==> r[i].updatedAt <= r[j].updatedAt
    ensures order == MostViewed ==> forall i, j :: 0 <= i < j < |r| ==> r[i].views >= r[j].views
  {
    var r := SortByKey(filtered, Key(order));
    assert SortedBy(r, Key(order));
    r
  }

  /** The list the page renders. */
  function Listed(user: Option<Accounts.User>, blogs: seq<Blog>, tab: Tab, query: string, order: SortOrder): seq<Blog> {
    Sorted(Filtered(UserBlogs(user, blogs), tab, query), order)
  }

  /** A post is listed exactly when it is in the store, belongs to the
      signed-in user, is on the tab and matches a non-empty query; signed
      out, nothing is listed. */
  lemma ListedSpec(user: Option<Accounts.User>, blogs: seq<Blog>, tab: Tab, query: string, order: SortOrder, b: Blog)
    ensures b in Listed(user, blogs, tab, query, order) <==>
              && user.Some? && b in blogs && b.userId == user.value.id
              && (tab.All? || b.status == tab.status)
              && (query == "" || MatchesQuery(b, query))
  {
    var mine := UserBlogs(user, blogs);
    var f := Filtered(mine, tab, query);
    var l := Sorted(f, order);
    assert l == Listed(user, blogs, tab, query, order);
    assert b in l <==> b in f by {
      assert b in l <==> b in multiset(l);
      assert b in f <==> b in multiset(f);
    }
    FilteredSpec(mine, tab, query);
    if user.Some? {
      assert b in mine <==> b in blogs && b.userId == user.value.id by {
        assert b in mine <==> b in multiset(mine);
        assert b in blogs <==> b in multiset(blogs);
      }
    }
  }

  /** `handleDelete(id)`: deletes through the store and clears the pending
      selection. */
  method HandleDelete(store: Store, id: string, pending: Option<string>) returns (pendingAfter: Option<string>)
    modifies store
    ensures store.blogs == Deleted(old(store.blogs), id)
    ensures store.saved == Mirrored(old(store.saved), store.blogs)
    ensures pendingAfter.None?
  {
    store.DeleteBlog(id);
    pendingAfter := None;
  }

  /** `handleDuplicate(blog)`: announces a copy but creates none; the store
      is not touched. */
  method HandleDuplicate(store: Store, b: Blog) returns (notice: string)
    ensures notice == "A copy of your blog has been created as a draft."
    ensures unchanged(store)
  {
    notice := "A copy of your blog has been created as a draft.";
  }
}
