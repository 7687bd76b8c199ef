/** The content store: one flat sequence of blog records, changed by
    create, update, delete, publish/unpublish and view-increment, each of
    which replaces the whole sequence (append, map over the records with a
    given id, filter), and mirrored to durable storage after each change. */
module Blogs {
  import opened Wrappers
  import opened Seqs
  import Slugs
  import opened Clock

  datatype Status = Draft | Published | Scheduled

  datatype Author = Author(name: string, avatar: string)

  datatype Blog = Blog(
    id: string,
    userId: string,
    title: string,
    excerpt: string,
    content: string,
    image: string,
    author: Author,
    date: Timestamp,
    readTime: string,
    category: string,
    tags: seq<string>,
    status: Status,
    views: nat,
    slug: string,
    createdAt: Timestamp,
    updatedAt: Timestamp,
    scheduledAt: Option<Timestamp>)

  /** The argument of `createBlog`: a record without its id, timestamps and
      view counter. Its `slug` is ignored. */
  datatype BlogDraft = BlogDraft(
    userId: string,
    title: string,
    excerpt: string,
    content: string,
    image: string,
    author: Author,
    date: Timestamp,
    readTime: string,
    category: string,
    tags: seq<string>,
    status: Status,
    slug: string,
    scheduledAt: Option<Timestamp>)

  /** The argument of `updateBlog`, a `Partial` record: each field is either
      supplied or absent. */
  datatype Patch = Patch(
    id: Option<string>,
    userId: Option<string>,
    title: Option<string>,
    excerpt: Option<string>,
    content: Option<string>,
    image: Option<string>,
    author: Option<Author>,
    date: Option<Timestamp>,
    readTime: Option<string>,
    category: Option<string>,
    tags: Option<seq<string>>,
    status: Option<Status>,
    views: Option<nat>,
    slug: Option<string>,
    createdAt: Option<Timestamp>,
    updatedAt: Option<Timestamp>,
    scheduledAt: Option<Timestamp>)

  /** The empty patch `{}`. */
  const NoChanges := Patch(None, None, None, None, None, None, None, None, None,
                           None, None, None, None, None, None, None, None)

  /** `{ status }`, the patch of `publishBlog` and `unpublishBlog`. */
  function StatusPatch(s: Status): Patch {
    NoChanges.(status := Some(s))
  }

  /** The record `createBlog` builds: the caller's fields, the given id,
      no views, both timestamps `now`, and the slug of the title. */
  function NewBlog(d: BlogDraft, id: string, now: Timestamp): Blog {
    Blog(id, d.userId, d.title, d.excerpt, d.content, d.image, d.author, d.date,
         d.readTime, d.category, d.tags, d.status, 0, Slugs.Slug(d.title),
         now, now, d.scheduledAt)
  }

  /** `{ ...blog, ...updates, slug, updatedAt }` in `updateBlog`: the supplied
      fields win, the slug is recomputed only from a non-empty supplied title
      (a supplied slug never survives), and `updatedAt` becomes `now`. */
  function Merge(b: Blog, p: Patch, now: Timestamp): (r: Blog)
    ensures r.updatedAt == now
    ensures p.title.Some? && p.title.value != "" ==> r.slug == Slugs.Slug(r.title)
    ensures p.title.None? || p.title.value == "" ==> r.slug == b.slug
  {
    Blog(
      p.id.GetOr(b.id),
      p.userId.GetOr(b.userId),
      p.title.GetOr(b.title),
      p.excerpt.GetOr(b.excerpt),
      p.content.GetOr(b.content),
      p.image.GetOr(b.image),
      p.author.GetOr(b.author),
      p.date.GetOr(b.date),
      p.readTime.GetOr(b.readTime),
      p.category.GetOr(b.category),
      p.tags.GetOr(b.tags),
      p.status.GetOr(b.status),
      p.views.GetOr(b.views),
      if p.title.Some? && p.title.value != "" then Slugs.Slug(p.title.value) else b.slug,
      p.createdAt.GetOr(b.createdAt),
      now,
      if p.scheduledAt.Some? then p.scheduledAt else b.scheduledAt)
  }

  /** A status patch changes the status and `updatedAt` and nothing else:
      in particular the slug is kept. */
  lemma StatusPatchChangesOnlyStatus(b: Blog, s: Status, now: Timestamp)
    ensures Merge(b, StatusPatch(s), now) == b.(status := s, updatedAt := now)
  {
  }

  function HasId(id: string): Blog -> bool {
    (b: Blog) => b.id == id
  }

  function LacksId(id: string): Blog -> bool {
    (b: Blog) => b.id != id
  }

  /** The counter bump of `incrementViews`. */
  function Bump(b: Blog): Blog {
    b.(views := b.views + 1)
  }

  /** The new sequence of `updateBlog(id, p)`. */
  function Updated(bs: seq<Blog>, id: string, p: Patch, now: Timestamp): seq<Blog> {
    MapIf(bs, HasId(id), (b: Blog) => Merge(b, p, now))
  }

  /** The new sequence of `incrementViews(id)`. */
  function Incremented(bs: seq<Blog>, id: string): seq<Blog> {
    MapIf(bs, HasId(id), Bump)
  }

  /** The new sequence of `deleteBlog(id)`. */
  function Deleted(bs: seq<Blog>, id: string): seq<Blog> {
    Keep(bs, LacksId(id))
  }

  /** `getBlogById`: the first record with the id. */
  function BlogById(bs: seq<Blog>, id: string): (r: Option<Blog>)
    ensures r.None? <==> forall j :: 0 <= j < |bs| ==> bs[j].id != id
    ensures r.Some? ==> exists i :: 0 <= i < |bs| && bs[i] == r.value && r.value.id == id
                                    && forall j :: 0 <= j < i ==> bs[j].id != id
  {
    First(bs, HasId(id))
  }

  /** `getBlogBySlug`: the first record with the slug. */
  function BlogBySlug(bs: seq<Blog>, slug: string): (r: Option<Blog>)
    ensures r.None? <==> forall j :: 0 <= j < |bs| ==> bs[j].slug != slug
    ensures r.Some? ==> exists i :: 0 <= i < |bs| && bs[i] == r.value && r.value.slug == slug
                                    && forall j :: 0 <= j < i ==> bs[j].slug != slug
  {
    First(bs, (b: Blog) => b.slug == slug)
  }

  /** `getUserBlogs(userId)`: the user's records, in stored order. */
  function OwnedBy(bs: seq<Blog>, userId: string): (r: seq<Blog>)
    ensures IsSubseq(r, bs)
    ensures forall b :: multiset(r)[b] == if b.userId == userId then multiset(bs)[b] else 0
  {
    KeepSpec(bs, (b: Blog) => b.userId == userId);
    Keep(bs, (b: Blog) => b.userId == userId)
  }

  /** `getPublishedBlogs()`: the published records of every user, in stored
      order. */
  function PublishedIn(bs: seq<Blog>): (r: seq<Blog>)
    ensures IsSubseq(r, bs)
    ensures forall b :: multiset(r)[b] == if b.status == Published then multiset(bs)[b] else 0
  {
    KeepSpec(bs, (b: Blog) => b.status == Published);
    Keep(bs, (b: Blog) => b.status == Published)
  }

  /** `getBlogById` after appending a record: the earlier match if there
      was one, else the new record if it has the id. */
  lemma ByIdAfterAppend(bs: seq<Blog>, nb: Blog, id: string)
    ensures BlogById(bs + [nb], id) ==
            if BlogById(bs, id).Some? then BlogById(bs, id)
            else if nb.id == id then Some(nb) else None
  {
    FirstAppend(bs, nb, HasId(id));
  }

  /** A freshly created record is found by its id, has no views, carries the
      status it was created with and the slug of its title, whatever slug the
      caller passed, provided no earlier record has the same id. */
  lemma CreateThenFind(bs: seq<Blog>, d: BlogDraft, id: string, now: Timestamp)
    requires forall j :: 0 <= j < |bs| ==> bs[j].id != id
    ensures var nb := NewBlog(d, id, now);
            && BlogById(bs + [nb], id) == Some(nb)
            && nb.views == 0 && nb.status == d.status && nb.slug == Slugs.Slug(d.title)
            && nb.createdAt == now && nb.updatedAt == now
  {
    ByIdAfterAppend(bs, NewBlog(d, id, now), id);
  }

  /** Ids come from the clock and are not checked: a record created with the
      id of an earlier one is shadowed by it in `getBlogById`. */
  lemma DuplicateIdShadowed(bs: seq<Blog>, d: BlogDraft, id: string, now: Timestamp, k: nat)
    requires k < |bs| && bs[k].id == id
    ensures BlogById(bs, id).Some?
    ensures BlogById(bs + [NewBlog(d, id, now)], id) == BlogById(bs, id)
  {
    ByIdAfterAppend(bs, NewBlog(d, id, now), id);
  }

  /** `updateBlog` keeps the length, rewrites every record with the id and
      leaves every other record as it was. */
  lemma UpdatedShape(bs: seq<Blog>, id: string, p: Patch, now: Timestamp)
    ensures var r := Updated(bs, id, p, now);
            && |r| == |bs|
            && forall i :: 0 <= i < |bs| ==>
                 r[i] == if bs[i].id == id then Merge(bs[i], p, now) else bs[i]
  {
  }

  /** `updateBlog` with an id no record has changes nothing. */
  lemma UpdateUnknownIsNoop(bs: seq<Blog>, id: string, p: Patch, now: Timestamp)
    requires forall j :: 0 <= j < |bs| ==> bs[j].id != id
    ensures Updated(bs, id, p, now) == bs
  {
    UpdatedShape(bs, id, p, now);
  }

  /** `publishBlog`/`unpublishBlog` set the status and refresh `updatedAt` on
      the records with the id, keep their slug and every other field, and
      leave the other records alone. */
  lemma StatusChange(bs: seq<Blog>, id: string, s: Status, now: Timestamp)
    ensures var r := Updated(bs, id, StatusPatch(s), now);
            && |r| == |bs|
            && forall i :: 0 <= i < |bs| ==>
                 r[i] == if bs[i].id == id then bs[i].(status := s, updatedAt := now) else bs[i]
  {
    UpdatedShape(bs, id, StatusPatch(s), now);
    forall i | 0 <= i < |bs| && bs[i].id == id {
      StatusPatchChangesOnlyStatus(bs[i], s, now);
    }
  }

  /** `incrementViews` applied `n` times. */
  function IncrementedTimes(bs: seq<Blog>, id: string, n: nat): seq<Blog> {
    if n == 0 then bs else Incremented(IncrementedTimes(bs, id, n - 1), id)
  }

  /** `n` increments raise the views of each record with the id by exactly
      `n`, and change nothing else: not the slug, not `updatedAt`. */
  lemma {:induction false} IncrementRepeated(bs: seq<Blog>, id: string, n: nat)
    ensures var r := IncrementedTimes(bs, id, n);
            && |r| == |bs|
            && forall i :: 0 <= i < |bs| ==>
                 r[i] == if bs[i].id == id then bs[i].(views := bs[i].views + n) else bs[i]
  {
    if n > 0 {
      IncrementRepeated(bs, id, n - 1);
    }
  }

  /** `deleteBlog(id)` keeps, in order, exactly the records with another id. */
  lemma DeletedShape(bs: seq<Blog>, id: string)
    ensures var r := Deleted(bs, id);
            && IsSubseq(r, bs)
            && (forall b :: multiset(r)[b] == if b.id != id then multiset(bs)[b] else 0)
            && BlogById(r, id).None?
  {
    KeepSpec(bs, LacksId(id));
  }

  /** Deleting twice is deleting once. */
  lemma DeleteIdempotent(bs: seq<Blog>, id: string)
    ensures Deleted(Deleted(bs, id), id) == Deleted(bs, id)
  {
    KeepIdempotent(bs, LacksId(id));
  }
}
