/** The store object over the blog records, its write-through to durable
    storage, and the invariant that keeps slugs in step with titles. */
module BlogStore {
  import opened Wrappers
  import opened Seqs
  import opened Clock
  import opened Blogs
  import Slugs

  /** Every record's slug is the slug of its title. */
  ghost predicate SlugsTrackTitles(bs: seq<Blog>) {
    forall i :: 0 <= i < |bs| ==> bs[i].slug == Slugs.Slug(bs[i].title)
  }

  /** Creating keeps slugs in step with titles. */
  lemma CreateKeepsSlugs(bs: seq<Blog>, d: BlogDraft, id: string, now: Timestamp)
    requires SlugsTrackTitles(bs)
    ensures SlugsTrackTitles(bs + [NewBlog(d, id, now)])
  {
    var r := bs + [NewBlog(d, id, now)];
    forall i | 0 <= i < |r| ensures r[i].slug == Slugs.Slug(r[i].title) {
      if i < |bs| {
        assert r[i] == bs[i];
      }
    }
  }

  /** Updating keeps slugs in step with titles unless the patch sets the
      title to the empty string. */
  lemma UpdateKeepsSlugs(bs: seq<Blog>, id: string, p: Patch, now: Timestamp)
    requires SlugsTrackTitles(bs)
    requires p.title != Some("")
    ensures SlugsTrackTitles(Updated(bs, id, p, now))
  {
    UpdatedShape(bs, id, p, now);
  }

  /** A patch that empties the title keeps the old slug, which then no longer
      belongs to the title. */
  lemma EmptyTitleKeepsStaleSlug(b: Blog, p: Patch, now: Timestamp)
    requires p.title == Some("") && b.slug != Slugs.Slug("")
    ensures Merge(b, p, now).title == ""
    ensures Merge(b, p, now).slug == b.slug != Slugs.Slug(Merge(b, p, now).title)
  {
  }

  /** What the write-through effect leaves in the "blogs" entry of durable
      storage after the sequence becomes `current`: it writes only a
      non-empty sequence, so deleting the last record leaves the previous
      list stored. */
  function Mirrored(stored: Option<seq<Blog>>, current: seq<Blog>): (r: Option<seq<Blog>>)
    ensures current != [] ==> r == Some(current)
    ensures current == [] ==> r == stored
  {
    if |current| > 0 then Some(current) else stored
  }

  /** The store object. `saved` is the "blogs" entry of durable storage. */
  class Store {
    var blogs: seq<Blog>
    ghost var saved: Option<seq<Blog>>

    /** Mounting: the stored list, if there is one, becomes the collection;
        writing it back changes nothing. */
    constructor (stored: Option<seq<Blog>>)
      ensures blogs == stored.GetOr([])
      ensures saved == stored
    {
      blogs := stored.GetOr([]);
      saved := stored;
    }

    /** The write-through effect. */
    method Persist()
      modifies this`saved
      ensures saved == Mirrored(old(saved), blogs)
    {
      if |blogs| > 0 {
        saved := Some(blogs);
      }
    }

    function GetUserBlogs(userId: string): (r: seq<Blog>)
      reads this
      ensures IsSubseq(r, blogs)
      ensures forall b :: multiset(r)[b] == if b.userId == userId then multiset(blogs)[b] else 0
    {
      OwnedBy(blogs, userId)
    }

    function GetPublishedBlogs(): (r: seq<Blog>)
      reads this
      ensures IsSubseq(r, blogs)
      ensures forall b :: multiset(r)[b] == if b.status == Published then multiset(blogs)[b] else 0
    {
      PublishedIn(blogs)
    }

    function GetBlogById(id: string): (r: Option<Blog>)
      reads this
      ensures r.None? <==> forall j :: 0 <= j < |blogs| ==> blogs[j].id != id
      ensures r.Some? ==> exists i :: 0 <= i < |blogs| && blogs[i] == r.value && r.value.id == id
                                      && forall j :: 0 <= j < i ==> blogs[j].id != id
    {
      BlogById(blogs, id)
    }

    function GetBlogBySlug(slug: string): (r: Option<Blog>)
      reads this
      ensures r.None? <==> forall j :: 0 <= j < |blogs| ==> blogs[j].slug != slug
      ensures r.Some? ==> exists i :: 0 <= i < |blogs| && blogs[i] == r.value && r.value.slug == slug
                                      && forall j :: 0 <= j < i ==> blogs[j].slug != slug
    {
      BlogBySlug(blogs, slug)
    }

    /** `createBlog(d)` with `id` and `now` standing for `blog_${Date.now()}`
        and the clock: appends exactly one record and returns it. */
    method CreateBlog(d: BlogDraft, id: string, now: Timestamp) returns (b: Blog)
      modifies this
      ensures b == NewBlog(d, id, now)
      ensures blogs == old(blogs) + [b]
      ensures saved == Some(blogs)
    {
      b := NewBlog(d, id, now);
      blogs := blogs + [b];
      Persist();
    }

    method UpdateBlog(id: string, p: Patch, now: Timestamp)
      modifies this
      ensures blogs == Updated(old(blogs), id, p, now)
      ensures saved == Mirrored(old(saved), blogs)
    {
      blogs := Updated(blogs, id, p, now);
      Persist();
    }

    method DeleteBlog(id: string)
      modifies this
      ensures blogs == Deleted(old(blogs), id)
      ensures saved == Mirrored(old(saved), blogs)
    {
      blogs := Deleted(blogs, id);
      Persist();
    }

    method PublishBlog(id: string, now: Timestamp)
      modifies this
      ensures blogs == Updated(old(blogs), id, StatusPatch(Published), now)
      ensures saved == Mirrored(old(saved), blogs)
    {
      UpdateBlog(id, StatusPatch(Published), now);
    }

    method UnpublishBlog(id: string, now: Timestamp)
      modifies this
      ensures blogs == Updated(old(blogs), id, StatusPatch(Draft), now)
      ensures saved == Mirrored(old(saved), blogs)
    {
      UpdateBlog(id, StatusPatch(Draft), now);
    }

    method IncrementViews(id: string)
      modifies this
      ensures blogs == Incremented(old(blogs), id)
      ensures saved == Mirrored(old(saved), blogs)
    {
      blogs := Incremented(blogs, id);
      Persist();
    }
  }
}
