# Blog platform: content store, account store and editor pages

This project models the core of a single-user, browser-local blogging
application written in React and TypeScript. That core is:

- **The content store** (`BlogContext`). One flat list of blog records
  mirrored to local storage. It offers create, update, delete,
  publish/unpublish, view counting, lookups by id, slug and owner, and the
  slug derivation `generateSlug`.
- **The account store** (`AuthContext`). The registered-user list,
  registration with its duplicate checks, sign-in with "remember me",
  sign-out and profile update.
- **The pages' own logic:**
  - the sign-up form's password-strength meter and per-field validator;
  - the sign-in form's check and submit handler;
  - the "my blogs" filter, search and sort;
  - the dashboard figures;
  - the two editors, which turn their form into a record or a patch for the
    content store.

The modules follow the source:

| module | what it models |
|---|---|
| `Seqs`, `Text` | the array and string built-ins the code relies on (`filter`, `find`, `findIndex`, `map`, `sort`, `trim`, `split`, `join`, `toLowerCase`, `includes`, number-to-string) |
| `Email` | the email regular expression both forms use |
| `Slugs` | `generateSlug` |
| `Blogs` | the record types and the pure transformation behind each store operation |
| `BlogStore` | the store as a class whose methods replace the list and write it through to storage |
| `Accounts` | users and the account store class |
| `RegisterPage`, `LoginPage`, `MyBlogsPage`, `DashboardPage` | the page logic listed above |
| `BlogForm` | the derivations both editors share |
| `CreateBlogPage`, `EditBlogPage` | each editor's state and handlers, as a class |

The two stores and the two editors change state in place, so they are
classes:

- every handler is a method;
- its contract gives the new state in terms of a specification function of
  the old one (`store.blogs == Updated(old(store.blogs), id, p, now)`);
- lemmas prove what the code promises about those functions.

Storage entries are fields of the store objects, holding the values
themselves:

- the "users" entry is the real field `Accounts.AuthStore.users`, because
  registration, sign-in and profile update read it back;
- the "blogs" entry and the two "user" entries are ghost fields, because
  nothing in the model reads them back after mounting.

The clock, fresh ids and the displayed save time are parameters.

Three behaviours of the code are worth knowing:

- **Slugs may start or end with a hyphen.** `generateSlug`
  (src/contexts/BlogContext.tsx:42-49) trims only whitespace. It does so
  after whitespace runs have already become hyphens, so `" Hi"` gives
  `"-hi"` (`Slugs.LeadingSpaceKeepsHyphen`). The model proves what does
  hold: slug characters only, no two hyphens in a row, and idempotence
  (`Slugs.SlugShape`, `Slugs.SlugIdempotent`).
- **An update can leave a slug that does not match its title.** The slug is
  recomputed only from a non-empty supplied title, so a patch that empties
  the title keeps the old slug (`BlogStore.EmptyTitleKeepsStaleSlug`).
- **Ids are not unique.** They come from the clock and nothing checks them.
  A record that repeats an earlier id is unreachable by id
  (`Blogs.DuplicateIdShadowed`).

## Model

| member | source | states |
|---|---|---|
| Slugs.ReplaceRunsSpec | src/contexts/BlogContext.tsx:46-47 | a run rewrite's first character is the replacement when the input starts inside a run and the input's own first character otherwise; the rewrite produces only the replacement or characters outside the class, and never two replacements in a row when the replacement is in the class |
| Slugs.ReplaceIsolated | src/contexts/BlogContext.tsx:46-47 | where no two class characters are adjacent the run rewrite is a character-by-character substitution of the same length |
| Slugs.ReplaceRunsIdentity | src/contexts/BlogContext.tsx:47 | a string whose class characters are already single replacement characters is left unchanged |
| Slugs.RewrittenShape | src/contexts/BlogContext.tsx:42-49 | after the four rewrites only `a-z`, `0-9`, `_`, `-` remain, with no `--`, so the final trim removes nothing |
| Slugs.SlugShape | src/contexts/BlogContext.tsx:42-49 | every slug consists of slug characters only and has no two adjacent hyphens |
| Slugs.NoSpaceTrim | src/contexts/BlogContext.tsx:48 | trimming a string of slug characters is the identity |
| Slugs.SlugFixedPoint | src/contexts/BlogContext.tsx:42-49 | a string already of slug shape is its own slug |
| Slugs.SlugIdempotent | src/contexts/BlogContext.tsx:42-49 | generating the slug of a slug gives the same slug |
| Slugs.LeadingSpaceKeepsHyphen | src/contexts/BlogContext.tsx:42-49 | a title starting with whitespace gets a slug starting with a hyphen |
| Blogs.Merge | src/contexts/BlogContext.tsx:98-104 | the merged record has `updatedAt` = now; its slug is the slug of the new title when a non-empty title is supplied, and the old slug otherwise |
| Blogs.StatusPatchChangesOnlyStatus | src/contexts/BlogContext.tsx:114-120 | merging `{status}` changes the status and `updatedAt` and nothing else |
| Blogs.BlogById | src/contexts/BlogContext.tsx:73-75 | none exactly when no record has the id; otherwise the first record with the id |
| Blogs.BlogBySlug | src/contexts/BlogContext.tsx:77-79 | none exactly when no record has the slug; otherwise the first record with the slug |
| Blogs.OwnedBy | src/contexts/BlogContext.tsx:69-71 | an order-preserving subsequence containing each of the user's records with its multiplicity and no other record |
| Blogs.PublishedIn | src/contexts/BlogContext.tsx:130-132 | an order-preserving subsequence containing exactly the published records with their multiplicities |
| Blogs.ByIdAfterAppend | src/contexts/BlogContext.tsx:73-93 | lookup by id after an append returns the earlier match if any, else the new record if it has the id, else nothing |
| Blogs.CreateThenFind | src/contexts/BlogContext.tsx:73-93 | a created record with a fresh id is found by it, with zero views, its requested status, the slug of its title and both timestamps now |
| Blogs.DuplicateIdShadowed | src/contexts/BlogContext.tsx:81-93 | a created record reusing an existing id is never returned by lookup by id |
| Blogs.UpdatedShape | src/contexts/BlogContext.tsx:95-108 | update keeps the length, merges the patch into every record with the id, and leaves the others unchanged |
| Blogs.UpdateUnknownIsNoop | src/contexts/BlogContext.tsx:95-108 | updating an id no record has changes nothing |
| Blogs.StatusChange | src/contexts/BlogContext.tsx:114-120 | publish/unpublish set the status and `updatedAt` of the records with the id, keep their slug and every other field, and leave other records alone |
| Blogs.IncrementRepeated | src/contexts/BlogContext.tsx:122-128 | n increments raise the views of each record with the id by exactly n and change nothing else, slug and `updatedAt` included |
| Blogs.DeletedShape | src/contexts/BlogContext.tsx:110-112 | delete keeps, in order and with multiplicity, exactly the records with another id, after which lookup by id finds nothing |
| Blogs.DeleteIdempotent | src/contexts/BlogContext.tsx:110-112 | deleting twice equals deleting once |
| BlogStore.CreateKeepsSlugs | src/contexts/BlogContext.tsx:81-93 | creation preserves the invariant that every slug is the slug of its title |
| BlogStore.UpdateKeepsSlugs | src/contexts/BlogContext.tsx:95-108 | update preserves the same invariant unless the patch empties the title |
| BlogStore.EmptyTitleKeepsStaleSlug | src/contexts/BlogContext.tsx:102 | a patch that empties the title keeps the old slug, which then no longer matches the title |
| BlogStore.Mirrored | src/contexts/BlogContext.tsx:63-67 | storage receives the current list when it is non-empty and otherwise keeps what it held |
| BlogStore.Store.constructor | src/contexts/BlogContext.tsx:55-60 | the stored list, if any, becomes the collection; otherwise it starts empty |
| BlogStore.Store.Persist | src/contexts/BlogContext.tsx:63-67 | the storage entry becomes `Mirrored` of the old entry and the current list |
| BlogStore.Store.GetUserBlogs | src/contexts/BlogContext.tsx:69-71 | the user's records, in order, with their multiplicities |
| BlogStore.Store.GetPublishedBlogs | src/contexts/BlogContext.tsx:130-132 | the published records, in order, with their multiplicities |
| BlogStore.Store.GetBlogById | src/contexts/BlogContext.tsx:73-75 | the first record with the id, none exactly when there is none |
| BlogStore.Store.GetBlogBySlug | src/contexts/BlogContext.tsx:77-79 | the first record with the slug, none exactly when there is none |
| BlogStore.Store.CreateBlog | src/contexts/BlogContext.tsx:81-93 | appends exactly the new record (caller's fields, given id, zero views, slug of the title, timestamps now), returns it and stores the list |
| BlogStore.Store.UpdateBlog | src/contexts/BlogContext.tsx:95-108 | the list becomes `Updated(old, id, p, now)` and storage mirrors it |
| BlogStore.Store.DeleteBlog | src/contexts/BlogContext.tsx:110-112 | the list becomes `Deleted(old, id)`; storage keeps the old list when this empties it |
| BlogStore.Store.PublishBlog | src/contexts/BlogContext.tsx:114-116 | the list becomes the update with `{status: published}` |
| BlogStore.Store.UnpublishBlog | src/contexts/BlogContext.tsx:118-120 | the list becomes the update with `{status: draft}` |
| BlogStore.Store.IncrementViews | src/contexts/BlogContext.tsx:122-128 | the list becomes `Incremented(old, id)` and storage mirrors it |
| Accounts.RegistrationCheck | src/contexts/AuthContext.tsx:89-95 | "email exists" exactly when some user has the email; "username taken" exactly when none has the email but one has the username; no error exactly when neither is in use |
| Accounts.UserWithEmail | src/contexts/AuthContext.tsx:64 | none exactly when no user has the email; otherwise the first user with it |
| Accounts.RegisterKeepsUnique | src/contexts/AuthContext.tsx:85-107 | a registration that passes the checks keeps emails and usernames unique |
| Accounts.UniqueEmailFindsTheUser | src/contexts/AuthContext.tsx:64 | with unique emails, sign-in by a user's email finds exactly that user |
| Accounts.AuthStore.constructor | src/contexts/AuthContext.tsx:49-54 | only the durable "user" entry is read back as the signed-in user |
| Accounts.AuthStore.Register | src/contexts/AuthContext.tsx:81-113 | fails exactly when the check reports an error, with that error and no state change; otherwise appends the new user, signs them in and writes the durable entry |
| Accounts.AuthStore.Login | src/contexts/AuthContext.tsx:56-79 | succeeds exactly when some user has the email, returning the first one whatever the password; "remember me" chooses durable or session storage; failure changes nothing |
| Accounts.AuthStore.Logout | src/contexts/AuthContext.tsx:115-119 | the signed-in user and both storage entries are cleared; the user list is kept |
| Accounts.AuthStore.UpdateUser | src/contexts/AuthContext.tsx:121-136 | nothing when signed out; otherwise the merged user is signed in and stored durably, and replaces the first listed user with the old id if there is one |
| Email.DomainFromSpec | src/pages/Register.tsx:77 | the scan after `@` succeeds exactly when a whitespace-free `y.z` begins there |
| Email.TestSpec | src/pages/Register.tsx:77 | the regular-expression test holds exactly when the string contains a whitespace-free `x@y.z` somewhere |
| Email.ShiftMatch | src/pages/Login.tsx:30 | a match stays a match after a prefix is added, shifted by its length |
| Email.Unanchored | src/pages/Login.tsx:30 | text added before or after a passing string never makes it fail |
| Email.EmbeddedAddressPasses | src/pages/Register.tsx:77 | any string containing non-space `x@y.z` passes, such as `"a b@c.d"` |
| Email.NoAtFails | src/pages/Login.tsx:30 | a string without `@` fails |
| RegisterPage.GetPasswordStrength | src/pages/Register.tsx:31-44 | the result is the display of the rating from the criteria count; it is blank exactly for the empty password |
| RegisterPage.StrongIffAllCriteria | src/pages/Register.tsx:34-43 | "Strong" exactly when the password has 8 characters, an uppercase letter, a digit and a special character |
| RegisterPage.MoreCriteriaNeverLower | src/pages/Register.tsx:34-43 | a password meeting every criterion another meets is rated no lower |
| RegisterPage.MissingInOrder | src/pages/Register.tsx:88-92 | the listed requirements are, in fixed order, exactly those not met; none is listed exactly when all four are met |
| RegisterPage.FullNameValid | src/pages/Register.tsx:52-60 | the full name passes exactly when it has at least 2 characters |
| RegisterPage.UsernameValid | src/pages/Register.tsx:62-72 | the username passes exactly when it has at least 3 characters, all letters, digits or underscores; the earlier checks pick their messages |
| RegisterPage.EmailValid | src/pages/Register.tsx:74-82 | the email passes exactly when it is non-empty and contains a whitespace-free `x@y.z` |
| RegisterPage.PasswordValidIffStrong | src/pages/Register.tsx:84-100 | the password error clears exactly when the meter shows "Strong" |
| RegisterPage.ConfirmValid | src/pages/Register.tsx:102-110 | the confirmation passes exactly when it is non-empty and equals the password |
| RegisterPage.ValidateField | src/pages/Register.tsx:48-114 | an unknown field leaves the map as is; otherwise only the field's own entry changes, present exactly when its check fails and holding that check's message |
| LoginPage.ValidateForm | src/pages/Login.tsx:25-42 | each field's message comes from its own check, and the form is valid exactly when both are absent |
| LoginPage.FormValid | src/pages/Login.tsx:25-42 | the form passes exactly when the email is non-empty with a whitespace-free `x@y.z` and the password has at least 6 characters |
| LoginPage.SameEmailRule | src/pages/Login.tsx:28-32 | sign-in and sign-up give the same email messages |
| LoginPage.HandleSubmit | src/pages/Login.tsx:44-69 | rejected with the form errors exactly when validation fails, and then the store is untouched; otherwise signed in exactly when some user has the email, else failed with "Invalid email or password" and the store untouched; on sign-in the user list is kept and "remember me" picks durable or session storage |
| MyBlogsPage.FilteredSpec | src/pages/MyBlogs.tsx:44-54 | the filtered list is an ordered subsequence holding exactly the posts on the tab that match a non-empty query, each with its multiplicity |
| MyBlogsPage.NoFilterShowsAll | src/pages/MyBlogs.tsx:44-54 | the "all" tab with an empty query shows every post |
| MyBlogsPage.TabRefines | src/pages/MyBlogs.tsx:44-54 | narrowing the "all" list to one status gives that status's tab |
| MyBlogsPage.Sorted | src/pages/MyBlogs.tsx:57-64 | a permutation of the filtered list, ordered by `updatedAt` descending, ascending, or by views descending |
| MyBlogsPage.ListedSpec | src/pages/MyBlogs.tsx:41-70 | a post is listed exactly when the user is signed in, the post is theirs, on the tab and matches a non-empty query |
| MyBlogsPage.HandleDelete | src/pages/MyBlogs.tsx:72-79 | the list becomes `Deleted(old, id)` and the pending selection is cleared |
| MyBlogsPage.HandleDuplicate | src/pages/MyBlogs.tsx:81-87 | announces a copy and leaves the store unchanged |
| DashboardPage.SumOfPublished | src/pages/Dashboard.tsx:16-18 | summing the published subsequence equals summing published views over the whole list |
| DashboardPage.StatusPartition | src/pages/Dashboard.tsx:16-17 | the published, draft and scheduled filters split the list |
| DashboardPage.PublishedViewsBound | src/pages/Dashboard.tsx:18 | a published post's views never exceed the published total |
| DashboardPage.TotalViewsSpec | src/pages/Dashboard.tsx:16-18 | the total counts published views only and bounds each published post's views |
| DashboardPage.StatsSpec | src/pages/Dashboard.tsx:15-18 | published and drafts are exactly the user's posts with that status; together with scheduled they make up all of them; the total is the published views |
| DashboardPage.SignedOutIsEmpty | src/pages/Dashboard.tsx:15 | signed out, every figure is empty or zero |
| BlogForm.ParseTagsShape | src/pages/CreateBlog.tsx:77 | parsed tags are the non-empty trimmed pieces in order, each kept as often as it occurs (duplicates included), and each non-empty, trimmed and comma-free |
| BlogForm.TagsRoundTrip | src/pages/EditBlog.tsx:48 | joining clean tags with ", " and parsing the box again gives the tags back |
| BlogForm.CategoryOrDefault | src/pages/CreateBlog.tsx:76 | the category is never empty: the given one, or "Other" |
| BlogForm.CeilDivSpec | src/pages/CreateBlog.tsx:86 | the division result is the least whole number covering the count |
| BlogForm.ReadMinutesSpec | src/pages/CreateBlog.tsx:86 | the stored reading time is the least number of minutes covering the space-separated pieces at 200 a minute, at least 1, and 1 for empty content |
| BlogForm.ShownAtMostStored | src/pages/CreateBlog.tsx:280-281 | the on-screen estimate never exceeds the stored one, and for empty content is 0 where the stored one is 1 |
| CreateBlogPage.CreatedRecord | src/pages/CreateBlog.tsx:71-87 | the created record is the user's, signed with the full name or else the username, with zero views, the slug of the title, a non-empty category, clean tags and a reading time of at least one minute |
| CreateBlogPage.Editor.constructor | src/pages/CreateBlog.tsx:27-36 | empty form, not saving, no save time |
| CreateBlogPage.Editor.HandleSaveDraft | src/pages/CreateBlog.tsx:65-108 | without a user or title nothing changes; otherwise one draft built from the form is appended and stored and the save time shown |
| CreateBlogPage.Editor.HandlePublish | src/pages/CreateBlog.tsx:110-156 | without a user, title or content nothing changes; otherwise one published record built from the form is appended and stored |
| CreateBlogPage.Editor.AutosaveTick | src/pages/CreateBlog.tsx:38-47 | without a user or a title nothing changes; with both, each tick appends a new draft built from the form, stores the list, shows the save time and ends not saving |
| EditBlogPage.AccessOf | src/pages/EditBlog.tsx:65-89 | "not found" exactly when the id is absent or unknown; the editor exactly when the first record with the id belongs to the signed-in user |
| EditBlogPage.OnlyOwnerEdits | src/pages/EditBlog.tsx:78-89 | a post found by id but owned by someone else, or viewed while signed out, gives "unauthorized" |
| EditBlogPage.EditSaveShape | src/pages/EditBlog.tsx:112-120 | saving patches each record with the id from the form, keeps its status, views, owner and creation time, and leaves the other records alone |
| EditBlogPage.EditPublishShape | src/pages/EditBlog.tsx:155-165 | the patch followed by publishing leaves each record with the id patched from the form and published, the others alone |
| EditBlogPage.SameDerivations | src/pages/EditBlog.tsx:112-120 | the edit patch derives every content field exactly as the create page does, and touches no status, views, owner or timestamps |
| EditBlogPage.ReloadAndSave | src/pages/EditBlog.tsx:41-52 | loading a well-formed stored post and saving it unchanged only refreshes `updatedAt` |
| EditBlogPage.SaveThenReload | src/pages/EditBlog.tsx:41-52 | refilling the form after a save gives it back with the default category and normalised tags |
| EditBlogPage.Editor.constructor | src/pages/EditBlog.tsx:28-52 | the form is loaded from the post when the id finds one, otherwise empty |
| EditBlogPage.Editor.ReloadForm | src/pages/EditBlog.tsx:41-52 | the form is refilled from the current stored post when there is one |
| EditBlogPage.Editor.HandleSaveDraft | src/pages/EditBlog.tsx:106-140 | with the editor shown and a title, the list becomes the update with the form's patch and the save time is shown; otherwise nothing changes |
| EditBlogPage.Editor.HandlePublish | src/pages/EditBlog.tsx:142-182 | with the editor shown on a draft (the only state with a Publish button), a title and content, the list becomes the patch followed by publishing and storage holds it; otherwise nothing changes |
| EditBlogPage.Editor.HandleUnpublish | src/pages/EditBlog.tsx:184-191 | with the editor shown on a published post (the only state with an Unpublish button), the list becomes the update with `{status: draft}` and storage holds it; otherwise nothing changes |
| EditBlogPage.Editor.AutosaveTick | src/pages/EditBlog.tsx:54-63 | without the editor shown or a title nothing changes; otherwise the list becomes the update with the form's patch, storage mirrors it, the save time is shown and saving has ended |
| Slugs.Slug | src/contexts/BlogContext.tsx:42-49 | definition of `generateSlug`: lower-case, strip, hyphenate whitespace runs, squash hyphen runs, trim; its properties are `Slugs.SlugShape`, `Slugs.SlugIdempotent` and `Slugs.LeadingSpaceKeepsHyphen` |
| Blogs.NewBlog | src/contexts/BlogContext.tsx:82-89 | definition of the record `createBlog` builds; stated by `Blogs.CreateThenFind` and `BlogStore.Store.CreateBlog` |
| Blogs.Updated | src/contexts/BlogContext.tsx:95-108 | definition of the list after `updateBlog`; stated by `Blogs.UpdatedShape` and `Blogs.UpdateUnknownIsNoop` |
| Blogs.Deleted | src/contexts/BlogContext.tsx:110-112 | definition of the list after `deleteBlog`; stated by `Blogs.DeletedShape` and `Blogs.DeleteIdempotent` |
| Blogs.Incremented | src/contexts/BlogContext.tsx:122-128 | definition of the list after `incrementViews`; stated by `Blogs.IncrementRepeated` |
| Blogs.StatusPatch | src/contexts/BlogContext.tsx:114-120 | definition of the `{status}` patch; stated by `Blogs.StatusPatchChangesOnlyStatus` |
| Email.Test | src/pages/Register.tsx:77 | definition of `/\S+@\S+\.\S+/.test` as a left-to-right scan; stated by `Email.TestSpec` |
| Accounts.Merged | src/contexts/AuthContext.tsx:124 | definition of `{ ...user, ...data }`: supplied fields win; used by `Accounts.AuthStore.UpdateUser` |
| Accounts.NewUser | src/contexts/AuthContext.tsx:98-104 | definition of the registered user record; used by `Accounts.AuthStore.Register` and `Accounts.RegisterKeepsUnique` |
| RegisterPage.Score | src/pages/Register.tsx:34-38 | definition of the criteria count; stated by `RegisterPage.StrongIffAllCriteria` |
| RegisterPage.RatingOf | src/pages/Register.tsx:31-43 | definition of the rating from the count; stated by `RegisterPage.StrongIffAllCriteria` and `RegisterPage.MoreCriteriaNeverLower` |
| RegisterPage.Display | src/pages/Register.tsx:40-43 | definition of the label, colour and width of each rating; used by `RegisterPage.GetPasswordStrength` |
| RegisterPage.Missing | src/pages/Register.tsx:88-92 | definition of the missed requirements list; stated by `RegisterPage.MissingInOrder` |
| RegisterPage.FullNameError | src/pages/Register.tsx:52-60 | definition of the full-name message; stated by `RegisterPage.FullNameValid` |
| RegisterPage.UsernameError | src/pages/Register.tsx:62-72 | definition of the username message; stated by `RegisterPage.UsernameValid` |
| RegisterPage.EmailError | src/pages/Register.tsx:74-82 | definition of the email message; stated by `RegisterPage.EmailValid` |
| RegisterPage.PasswordError | src/pages/Register.tsx:84-100 | definition of the password message; stated by `RegisterPage.PasswordValidIffStrong` |
| RegisterPage.ConfirmError | src/pages/Register.tsx:102-110 | definition of the confirmation message; stated by `RegisterPage.ConfirmValid` |
| RegisterPage.FieldError | src/pages/Register.tsx:51-111 | definition of the message `validateField` leaves for each known field; stated by `RegisterPage.ValidateField` |
| LoginPage.EmailError | src/pages/Login.tsx:28-32 | definition of the sign-in email message; stated by `LoginPage.FormValid` and `LoginPage.SameEmailRule` |
| LoginPage.PasswordError | src/pages/Login.tsx:34-38 | definition of the sign-in password message; stated by `LoginPage.FormValid` |
| MyBlogsPage.UserBlogs | src/pages/MyBlogs.tsx:41 | definition of the signed-in user's posts, empty when signed out; stated by `MyBlogsPage.ListedSpec` |
| MyBlogsPage.MatchesQuery | src/pages/MyBlogs.tsx:46-51 | definition of the case-insensitive search on title and excerpt; used by `MyBlogsPage.FilteredSpec` |
| MyBlogsPage.Filtered | src/pages/MyBlogs.tsx:44-54 | definition of the tab and search filter; stated by `MyBlogsPage.FilteredSpec`, `MyBlogsPage.NoFilterShowsAll` and `MyBlogsPage.TabRefines` |
| MyBlogsPage.Listed | src/pages/MyBlogs.tsx:41-70 | definition of the rendered list; stated by `MyBlogsPage.ListedSpec` |
| DashboardPage.SumViews | src/pages/Dashboard.tsx:18 | definition of the `reduce` sum; stated by `DashboardPage.SumOfPublished` |
| DashboardPage.StatsOf | src/pages/Dashboard.tsx:15-18 | definition of the dashboard figures; stated by `DashboardPage.StatsSpec` and `DashboardPage.SignedOutIsEmpty` |
| BlogForm.ParseTags | src/pages/CreateBlog.tsx:77 | definition of the tag parsing; stated by `BlogForm.ParseTagsShape` and `BlogForm.TagsRoundTrip` |
| BlogForm.JoinTags | src/pages/EditBlog.tsx:48 | definition of the tag box text; stated by `BlogForm.TagsRoundTrip` |
| BlogForm.ReadMinutes | src/pages/CreateBlog.tsx:86 | definition of the stored minutes; stated by `BlogForm.ReadMinutesSpec` |
| BlogForm.ReadTime | src/pages/CreateBlog.tsx:86 | definition of the `"<n> min read"` text; stated by `CreateBlogPage.CreatedRecord` |
| BlogForm.ShownMinutes | src/pages/CreateBlog.tsx:280-281 | definition of the on-screen estimate; stated by `BlogForm.ShownAtMostStored` |
| BlogForm.AuthorOf | src/pages/CreateBlog.tsx:81-84 | definition of the author block; stated by `CreateBlogPage.CreatedRecord` |
| BlogForm.DraftFrom | src/pages/CreateBlog.tsx:71-87 | definition of the `createBlog` argument; stated by `CreateBlogPage.CreatedRecord` |
| BlogForm.EditPatch | src/pages/EditBlog.tsx:112-120 | definition of the `updateBlog` patch; stated by `EditBlogPage.EditSaveShape` and `EditBlogPage.SameDerivations` |
| BlogForm.FormOf | src/pages/EditBlog.tsx:43-50 | definition of the form loaded from a post; stated by `EditBlogPage.ReloadAndSave` and `EditBlogPage.SaveThenReload` |

## Left out

- Asynchrony. The simulated one-second delays, React's batching of state
  updates and the timer itself are not modelled. Each handler runs
  atomically. An autosave is one call of `AutosaveTick`.
- `isSaving`. It is set and cleared within one handler. Its value in the
  middle is not observable in the model.
- Toasts and navigation. `isAutoSave` affects only these, so it is not
  modelled. `MyBlogsPage.HandleDuplicate` shows only a notice because the
  source creates no copy.
- Serialisation. JSON encoding of storage entries is not modelled. Storage
  entries are fields holding the values themselves: `users` is real, the
  "blogs" and "user" entries are ghost.
- Session storage on mount. It is never read back, so a session-only
  sign-in is lost on reload (`Accounts.AuthStore.constructor`).
- Clocks. `Date.now()`, `new Date().toISOString()` and `toLocaleTimeString()`
  are parameters: a fresh id, an integer timestamp (milliseconds) and a
  label.
- `date`, `createdAt` and `updatedAt` share one time. The editor stamps
  `date` with its own `new Date()` (src/pages/CreateBlog.tsx:85), and
  `createBlog` reads the clock twice more. The model uses one `now` for all
  three.
- One clock reading per edit-page publish. The patch and the publish in
  `handlePublish` each read the clock; the model uses one `now` for both.
- Character handling.
  - `toLowerCase` is modelled on ASCII letters only.
  - `\w` and `\s` follow their ASCII and common-whitespace definitions.
  - String lengths count characters, not UTF-16 code units.
- MyBlogsPage.Sorted: the "az" order (`localeCompare`) is not modelled,
  because locale collation has no definition here. For the other orders the
  model states what any correct sort returns: a permutation ordered by the
  key. The order of posts with equal keys is not stated. In the source it is
  stable, since the sort keeps their filtered order.
- Unrendered edit handlers. When the edit page shows "not found" or
  "unauthorized", its handlers are never attached. An autosave tick in that
  state calls a handler that is not yet defined. The model treats every
  handler in that state as doing nothing. The same holds for the status
  buttons (src/pages/EditBlog.tsx:215-249):
  - "Unpublish" is rendered only for a published post;
  - "Publish" is rendered only for a draft;
  - a scheduled post gets neither.

  `EditBlogPage.Editor.HandlePublish` and `EditBlogPage.Editor.HandleUnpublish`
  do nothing unless their button is on screen.
- The image upload (`FileReader`) is not modelled: the cover image is a
  plain string field of the form.
- Form edits and submit in the sign-up page. `handleChange` and
  `handleSubmit` (src/pages/Register.tsx:116-168) are not modelled; the
  `validateField` and `register` they call are.
  - `handleSubmit` validates every field against the same error map from
    before the submit, so only the last field's result is kept.
  - It then tests that same earlier map, not the new one.
  - These effects come from React state closures, which the model does not
    represent.
- The settings, post-view, home and layout pages are not part of this
  model, and neither is the sample data file.
