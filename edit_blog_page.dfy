/** The editor for an existing post: the page resolves the post from its
    route id and the signed-in user, loads the form from it, and its
    handlers patch the stored record instead of creating a new one. */
module EditBlogPage {
  import opened Wrappers
  import opened Seqs
  import opened Clock
  import opened Blogs
  import opened BlogStore
  import opened BlogForm
  import Accounts
  import Slugs

  /** What the page renders: "not found", "unauthorized", or the editor for
      the stored record. */
  datatype Access = NotFound | Unauthorized | Editing(blog: Blog)

  /** The page's two early returns. A missing route id (`""`) or an id no
      record has gives "not found"; a post owned by someone else, or any
      post while signed out, gives "unauthorized". */
  function AccessOf(blogs: seq<Blog>, user: Option<Accounts.User>, id: string): (r: Access)
    ensures r.NotFound? <==> id == "" || forall j :: 0 <= j < |blogs| ==> blogs[j].id != id
    ensures r.Editing? <==>
              && id != "" && user.Some?
              && exists j :: 0 <= j < |blogs| && blogs[j].id == id && blogs[j].userId == user.value.id
                             && forall k :: 0 <= k < j ==> blogs[k].id != id
    ensures r.Editing? ==> r.blog in blogs && r.blog.id == id && r.blog.userId == user.value.id
  {
    var found := if id == "" then None else BlogById(blogs, id);
    if found.None? then NotFound
    else if user.None? || user.value.id != found.value.userId then Unauthorized
    else Editing(found.value)
  }

  /** A post that someone else owns can never be edited through this page,
      whoever is signed in. */
  lemma OnlyOwnerEdits(blogs: seq<Blog>, user: Option<Accounts.User>, id: string, j: nat)
    requires j < |blogs| && blogs[j].id == id && id != ""
    requires forall k :: 0 <= k < j ==> blogs[k].id != id
    requires user.None? || user.value.id != blogs[j].userId
    ensures AccessOf(blogs, user, id) == Unauthorized
  {
    var r := BlogById(blogs, id);
    var i :| 0 <= i < |blogs| && blogs[i] == r.value && r.value.id == id
             && forall k :: 0 <= k < i ==> blogs[k].id != id;
    if i < j {
      assert false;
    } else if j < i {
      assert false;
    }
  }

  /** The post as the edit patch leaves it: the form's fields, with the
      derivations the create page uses, the slug of the new title, the
      status, views, owner, author and creation time it had, and `updatedAt`
      refreshed. */
  predicate EditedFrom(r: Blog, b: Blog, form: FormData, now: Timestamp) {
    && r.id == b.id && r.userId == b.userId && r.author == b.author && r.date == b.date
    && r.views == b.views && r.createdAt == b.createdAt && r.scheduledAt == b.scheduledAt
    && r.title == form.title && r.excerpt == form.excerpt && r.content == form.content
    && r.image == form.coverImage
    && r.category == CategoryOrDefault(form.category)
    && r.tags == ParseTags(form.tags)
    && r.readTime == ReadTime(form.content)
    && r.slug == Slugs.Slug(form.title)
    && r.updatedAt == now
  }

  /** Saving a non-empty title patches every record with the id as
      `EditedFrom` says, keeps its status, and leaves the other records and
      the length alone. */
  lemma EditSaveShape(bs: seq<Blog>, id: string, form: FormData, now: Timestamp)
    requires form.title != ""
    ensures var r := Updated(bs, id, EditPatch(form), now);
            && |r| == |bs|
            && forall i :: 0 <= i < |bs| ==>
                 if bs[i].id == id then EditedFrom(r[i], bs[i], form, now) && r[i].status == bs[i].status
                 else r[i] == bs[i]
  {
    UpdatedShape(bs, id, EditPatch(form), now);
  }

  /** The patch followed by `publishBlog`: every record with the id is
      patched as `EditedFrom` says and ends up published; the other records
      and the length are as they were. */
  lemma EditPublishShape(bs: seq<Blog>, id: string, form: FormData, now: Timestamp)
    requires form.title != ""
    ensures var r := Updated(Updated(bs, id, EditPatch(form), now), id, StatusPatch(Published), now);
            && |r| == |bs|
            && forall i :: 0 <= i < |bs| ==>
                 if bs[i].id == id then EditedFrom(r[i], bs[i], form, now) && r[i].status == Published
                 else r[i] == bs[i]
  {
    var mid := Updated(bs, id, EditPatch(form), now);
    EditSaveShape(bs, id, form, now);
    StatusChange(mid, id, Published, now);
  }

  /** The edit page derives title, excerpt, content, image, category, tags
      and reading time exactly as the create page does. */
  lemma SameDerivations(form: FormData, user: Accounts.User, status: Status, now: Timestamp)
    ensures var p := EditPatch(form); var d := DraftFrom(form, user, status, now);
            && p.title == Some(d.title) && p.excerpt == Some(d.excerpt)
            && p.content == Some(d.content) && p.image == Some(d.image)
            && p.category == Some(d.category) && p.tags == Some(d.tags)
            && p.readTime == Some(d.readTime)
            && p.status.None? && p.views.None? && p.userId.None? && p.createdAt.None?
  {
  }

  /** Loading a stored post into the form and saving it unchanged gives the
      record its own fields back, provided they are in the shape the editor
      produces: a non-empty title, a category, clean tags and the reading
      time of its content. */
  lemma ReloadAndSave(b: Blog, now: Timestamp)
    requires b.title != "" && b.category != "" && b.slug == Slugs.Slug(b.title)
    requires b.readTime == ReadTime(b.content)
    requires forall k :: 0 <= k < |b.tags| ==> b.tags[k] != "" && ',' !in b.tags[k] && Text.Trim(b.tags[k]) == b.tags[k]
    ensures Merge(b, EditPatch(FormOf(b)), now) == b.(updatedAt := now)
  {
    TagsRoundTrip(b.tags);
  }

  /** Saving and then refilling the form from the saved record gives the
      form back with an empty category shown as "Other" and the tag box
      normalised to the parsed tags joined by ", ". */
  lemma SaveThenReload(b: Blog, form: FormData, now: Timestamp)
    ensures FormOf(Merge(b, EditPatch(form), now))
            == form.(category := CategoryOrDefault(form.category), tags := JoinTags(ParseTags(form.tags)))
  {
  }

  /** The editor's state; `id` is the route parameter, `""` when absent. */
  class Editor {
    const id: string
    var form: FormData
    var isSaving: bool
    var lastSaved: string

    /** Mounting: the form is filled from the post when the id finds one,
        whoever owns it, and left empty otherwise. */
    constructor (store: Store, id: string)
      ensures this.id == id && !isSaving && lastSaved == ""
      ensures var found := if id == "" then None else BlogById(store.blogs, id);
              form == if found.Some? then FormOf(found.value) else FormData("", "", "", "", "", "")
    {
      this.id := id;
      var found := if id == "" then None else store.GetBlogById(id);
      form := if found.Some? then FormOf(found.value) else FormData("", "", "", "", "", "");
      isSaving := false;
      lastSaved := "";
    }

    /** The effect on the looked-up post: it runs again whenever the stored
        record changes, a save included, and refills the whole form from it;
        with no post it leaves the form alone. */
    method ReloadForm(store: Store)
      modifies this`form
      ensures var found := if id == "" then None else BlogById(store.blogs, id);
              form == if found.Some? then FormOf(found.value) else old(form)
    {
      var found := if id == "" then None else store.GetBlogById(id);
      if found.Some? {
        form := FormOf(found.value);
      }
    }

    /** Whether the page shows the editor, and so whether its handlers can
        run at all. */
    predicate Editable(blogs: seq<Blog>, user: Option<Accounts.User>)
      reads this
    {
      AccessOf(blogs, user, id).Editing?
    }

    /** `handleSaveDraft`: with the editor shown and a title, patches the
        record with the form and shows the save time; the status is not
        part of the patch. */
    method HandleSaveDraft(store: Store, user: Option<Accounts.User>, now: Timestamp, timeLabel: string)
      modifies this, store
      ensures form == old(form)
      ensures !Editable(old(store.blogs), user) || form.title == "" ==> unchanged(this) && unchanged(store)
      ensures Editable(old(store.blogs), user) && form.title != "" ==>
                && store.blogs == Updated(old(store.blogs), id, EditPatch(form), now)
                && store.saved == Mirrored(old(store.saved), store.blogs)
                && lastSaved == timeLabel && !isSaving
    {
      if !Editable(store.blogs, user) {
        return;
      }
      if user.None? || form.title == "" || id == "" {
        return;
      }
      isSaving := true;
      store.UpdateBlog(id, EditPatch(form), now);
      lastSaved := timeLabel;
      isSaving := false;
    }

    /** Whether a status button is on screen: the editor is shown and the
        post has the status that button is rendered for ("Publish" on a
        draft, "Unpublish" on a published post; a scheduled post has
        neither). */
    predicate ShowsButtonFor(blogs: seq<Blog>, user: Option<Accounts.User>, status: Status)
      reads this
    {
      var access := AccessOf(blogs, user, id);
      access.Editing? && access.blog.status == status
    }

    /** `handlePublish`, reachable only from the "Publish" button of a
        draft: with a title and content, patches the record with the form
        and then publishes it. */
    method HandlePublish(store: Store, user: Option<Accounts.User>, now: Timestamp)
      modifies this, store
      ensures form == old(form) && lastSaved == old(lastSaved)
      ensures !ShowsButtonFor(old(store.blogs), user, Draft) || form.title == "" || form.content == "" ==>
                unchanged(this) && unchanged(store)
      ensures ShowsButtonFor(old(store.blogs), user, Draft) && form.title != "" && form.content != "" ==>
                && store.blogs == Updated(Updated(old(store.blogs), id, EditPatch(form), now), id, StatusPatch(Published), now)
                && store.saved == Some(store.blogs)
                && !isSaving
    {
      if !ShowsButtonFor(store.blogs, user, Draft) {
        return;
      }
      if user.None? || form.title == "" || form.content == "" || id == "" {
        return;
      }
      isSaving := true;
      store.UpdateBlog(id, EditPatch(form), now);
      store.PublishBlog(id, now);
      isSaving := false;
    }

    /** `handleUnpublish`, reachable only from the "Unpublish" button of a
        published post: moves the record back to drafts. */
    method HandleUnpublish(store: Store, user: Option<Accounts.User>, now: Timestamp)
      modifies store
      ensures !ShowsButtonFor(old(store.blogs), user, Published) ==> unchanged(store)
      ensures ShowsButtonFor(old(store.blogs), user, Published) ==>
                && store.blogs == Updated(old(store.blogs), id, StatusPatch(Draft), now)
                && store.saved == Some(store.blogs)
    {
      if !ShowsButtonFor(store.blogs, user, Published) {
        return;
      }
      if id == "" {
        return;
      }
      store.UnpublishBlog(id, now);
    }

    /** One tick of the autosave timer: saves when the title or the content
        is filled in; the save itself needs a title. */
    method AutosaveTick(store: Store, user: Option<Accounts.User>, now: Timestamp, timeLabel: string)
      modifies this, store
      ensures form == old(form)
      ensures !Editable(old(store.blogs), user) || form.title == "" ==> unchanged(this) && unchanged(store)
      ensures Editable(old(store.blogs), user) && form.title != "" ==>
                && store.blogs == Updated(old(store.blogs), id, EditPatch(form), now)
                && store.saved == Mirrored(old(store.saved), store.blogs)
                && lastSaved == timeLabel && !isSaving
    {
      if form.title != "" || form.content != "" {
        HandleSaveDraft(store, user, now, timeLabel);
      }
    }
  }
}
