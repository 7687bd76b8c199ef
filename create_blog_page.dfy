/** The new-post editor: saving a draft and publishing both create a new
    record in the content store, so every save, autosave included, adds a
    record of its own. */
module CreateBlogPage {
  import opened Wrappers
  import opened Seqs
  import opened Text
  import opened Clock
  import opened Blogs
  import opened BlogStore
  import opened BlogForm
  import Accounts
  import Slugs

  /** The record a save or publish creates: owned by the signed-in user,
      signed with the full name or else the username, no views, the slug of
      the title, a non-empty category, clean tags, and a reading time of at
      least one minute. */
  lemma CreatedRecord(form: FormData, user: Accounts.User, status: Status, id: string, now: Timestamp)
    ensures var b := NewBlog(DraftFrom(form, user, status, now), id, now);
            && b.id == id && b.userId == user.id && b.status == status && b.views == 0
            && b.title == form.title && b.content == form.content && b.image == form.coverImage
            && b.slug == Slugs.Slug(form.title)
            && b.author.name == (if user.fullName != "" then user.fullName else user.username)
            && b.category != "" && (form.category != "" ==> b.category == form.category)
            && (forall k :: 0 <= k < |b.tags| ==> b.tags[k] != "" && Trim(b.tags[k]) == b.tags[k])
            && b.readTime == Decimal(ReadMinutes(form.content)) + " min read"
            && ReadMinutes(form.content) >= 1
            && b.createdAt == now && b.updatedAt == now && b.date == now
  {
    ParseTagsShape(form.tags);
    ReadMinutesSpec(form.content);
  }

  /** The editor's state: the form, the saving flag and the time of the
      last save as shown on screen. */
  class Editor {
    var form: FormData
    var isSaving: bool
    var lastSaved: string

    constructor ()
      ensures form == FormData("", "", "", "", "", "")
      ensures !isSaving && lastSaved == ""
    {
      form := FormData("", "", "", "", "", "");
      isSaving := false;
      lastSaved := "";
    }

    /** `handleSaveDraft`: without a signed-in user or a title nothing
        happens; otherwise a draft built from the form is appended and the
        save time shown. `id`, `now` and `timeLabel` stand for the clock. */
    method HandleSaveDraft(store: Store, user: Option<Accounts.User>, id: string, now: Timestamp, timeLabel: string)
      returns (created: Option<Blog>)
      modifies this, store
      ensures form == old(form)
      ensures user.None? || form.title == "" ==> created.None? && unchanged(this) && unchanged(store)
      ensures user.Some? && form.title != "" ==>
                && created == Some(NewBlog(DraftFrom(form, user.value, Draft, now), id, now))
                && store.blogs == old(store.blogs) + [created.value]
                && store.saved == Some(store.blogs)
                && lastSaved == timeLabel && !isSaving
    {
      if user.None? || form.title == "" {
        return None;
      }
      isSaving := true;
      var b := store.CreateBlog(DraftFrom(form, user.value, Draft, now), id, now);
      lastSaved := timeLabel;
      isSaving := false;
      created := Some(b);
    }

    /** `handlePublish`: refused without a signed-in user, a title or
        content; otherwise a published record built from the form is
        appended. */
    method HandlePublish(store: Store, user: Option<Accounts.User>, id: string, now: Timestamp)
      returns (created: Option<Blog>)
      modifies this, store
      ensures form == old(form) && lastSaved == old(lastSaved)
      ensures user.None? || form.title == "" || form.content == "" ==>
                created.None? && unchanged(this) && unchanged(store)
      ensures user.Some? && form.title != "" && form.content != "" ==>
                && created == Some(NewBlog(DraftFrom(form, user.value, Published, now), id, now))
                && store.blogs == old(store.blogs) + [created.value]
                && store.saved == Some(store.blogs)
                && !isSaving
    {
      if user.None? || form.title == "" || form.content == "" {
        return None;
      }
      isSaving := true;
      var b := store.CreateBlog(DraftFrom(form, user.value, Published, now), id, now);
      isSaving := false;
      created := Some(b);
    }

    /** One tick of the autosave timer: it saves when the title or the
        content is filled in, but the save itself needs a title, so a form
        with content only is never autosaved, and every autosave appends a
        record of its own rather than updating the previous one. */
    method AutosaveTick(store: Store, user: Option<Accounts.User>, id: string, now: Timestamp, timeLabel: string)
      returns (created: Option<Blog>)
      modifies this, store
      ensures form == old(form)
      ensures user.None? || form.title == "" ==> created.None? && unchanged(this) && unchanged(store)
      ensures user.Some? && form.title != "" ==>
                && created == Some(NewBlog(DraftFrom(form, user.value, Draft, now), id, now))
                && store.blogs == old(store.blogs) + [created.value]
                && store.saved == Some(store.blogs)
                && lastSaved == timeLabel && !isSaving
    {
      created := None;
      if form.title != "" || form.content != "" {
        created := HandleSaveDraft(store, user, id, now, timeLabel);
      }
    }
  }
}
