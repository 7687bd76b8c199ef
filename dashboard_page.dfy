/** The author's overview: how many posts they have, which are published and
    which are drafts, and the views their published posts collected. */
module DashboardPage {
  import opened Wrappers
  import opened Seqs
  import opened Blogs
  import Accounts

  predicate IsPublished(b: Blog) { b.status == Published }

  predicate IsDraft(b: Blog) { b.status == Draft }

  predicate IsScheduled(b: Blog) { b.status == Scheduled }

  /** `reduce((sum, blog) => sum + blog.views, 0)`. */
  function SumViews(bs: seq<Blog>): nat {
    if bs == [] then 0 else SumViews(bs[..|bs| - 1]) + bs[|bs| - 1].views
  }

  /** Reference definition of the total: the views of every post, counting
      a post only when it is published. */
  function PublishedViews(bs: seq<Blog>): nat {
    if bs == [] then 0
    else (if IsPublished(bs[0]) then bs[0].views else 0) + PublishedViews(bs[1..])
  }

  datatype Stats = Stats(userBlogs: seq<Blog>, published: seq<Blog>, drafts: seq<Blog>, totalViews: nat)

  /** What the dashboard computes from the signed-in user and the store. */
  function StatsOf(user: Option<Accounts.User>, blogs: seq<Blog>): Stats {
    var mine := if user.Some? then OwnedBy(blogs, user.value.id) else [];
    var published := Keep(mine, IsPublished);
    Stats(mine, published, Keep(mine, IsDraft), SumViews(published))
  }

  lemma {:induction false} SumViewsFront(b: Blog, bs: seq<Blog>)
    ensures SumViews([b] + bs) == b.views + SumViews(bs)
    decreases |bs|
  {
    if bs != [] {
      var all := [b] + bs;
      assert all[..|all| - 1] == [b] + bs[..|bs| - 1];
      SumViewsFront(b, bs[..|bs| - 1]);
    }
  }

  /** Summing the published subsequence is summing the published views of
      the whole list: draft and scheduled views never count. */
  lemma {:induction false} SumOfPublished(bs: seq<Blog>)
    ensures SumViews(Keep(bs, IsPublished)) == PublishedViews(bs)
  {
    if bs != [] {
      SumOfPublished(bs[1..]);
      if IsPublished(bs[0]) {
        SumViewsFront(bs[0], Keep(bs[1..], IsPublished));
      }
    }
  }

  /** Each post is published, a draft or scheduled, so the three filters
      split the list. */
  lemma {:induction false} StatusPartition(bs: seq<Blog>)
    ensures |Keep(bs, IsPublished)| + |Keep(bs, IsDraft)| + |Keep(bs, IsScheduled)| == |bs|
  {
    if bs != [] {
      StatusPartition(bs[1..]);
    }
  }

  /** A published post's views never exceed the total. */
  lemma {:induction false} PublishedViewsBound(bs: seq<Blog>, k: nat)
    requires k < |bs| && IsPublished(bs[k])
    ensures bs[k].views <= PublishedViews(bs)
  {
    if k > 0 {
      PublishedViewsBound(bs[1..], k - 1);
    }
  }

  /** The total counts the published posts' views only, and bounds each
      of them. */
  lemma TotalViewsSpec(mine: seq<Blog>)
    ensures var published := Keep(mine, IsPublished);
            && SumViews(published) == PublishedViews(mine)
            && forall k :: 0 <= k < |published| ==> published[k].views <= SumViews(published)
  {
    var published := Keep(mine, IsPublished);
    SumOfPublished(mine);
    KeepAll(published, IsPublished);
    SumOfPublished(published);
    forall k | 0 <= k < |published| ensures published[k].views <= SumViews(published) {
      PublishedViewsBound(published, k);
    }
  }

  /** The dashboard's figures: published and drafts are exactly the user's
      posts with that status, together at most all of them (the rest are
      scheduled), and the total counts the published posts' views only and
      bounds each of them. */
  lemma StatsSpec(user: Option<Accounts.User>, blogs: seq<Blog>)
    ensures var s := StatsOf(user, blogs);
            && (forall b :: b in s.published <==> b in s.userBlogs && b.status == Published)
            && (forall b :: b in s.drafts <==> b in s.userBlogs && b.status == Draft)
            && |s.published| + |s.drafts| + |Keep(s.userBlogs, IsScheduled)| == |s.userBlogs|
            && s.totalViews == PublishedViews(s.userBlogs)
            && forall k :: 0 <= k < |s.published| ==> s.published[k].views <= s.totalViews
  {
    var s := StatsOf(user, blogs);
    var mine := s.userBlogs;
    assert s.published == Keep(mine, IsPublished) && s.drafts == Keep(mine, IsDraft);
    assert s.totalViews == SumViews(s.published);
    KeepSpec(mine, IsPublished);
    KeepSpec(mine, IsDraft);
    StatusPartition(mine);
    TotalViewsSpec(mine);
  }

  /** Signed out, every figure is zero. */
  lemma SignedOutIsEmpty(blogs: seq<Blog>)
    ensures StatsOf(None, blogs) == Stats([], [], [], 0)
  {
  }
}
