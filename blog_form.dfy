/** What the two editor pages derive from their form before writing to the
    content store: the tag list, the category, the reading time and the
    author, and the record or patch they send. */
module BlogForm {
  import opened Wrappers
  import opened Seqs
  import opened Text
  import opened Clock
  import opened Blogs
  import Accounts

  /** The editor's text fields; `tags` is the comma-separated text box. */
  datatype FormData = FormData(
    title: string,
    excerpt: string,
    content: string,
    category: string,
    tags: string,
    coverImage: string)

  /** `filter(Boolean)` on strings. */
  predicate NonEmpty(t: string) { t != "" }

  /** `.map((t) => t.trim())` */
  function TrimEach(pieces: seq<string>): (r: seq<string>)
    ensures |r| == |pieces|
  {
    seq(|pieces|, i requires 0 <= i < |pieces| => Trim(pieces[i]))
  }

  /** `tags.split(",").map((t) => t.trim()).filter(Boolean)` */
  function ParseTags(text: string): seq<string> {
    Keep(TrimEach(Split(text, ',')), NonEmpty)
  }

  /** Trimming keeps a subset of the characters. */
  lemma TrimKeepsCharacters(s: string, c: char)
    requires c in Trim(s)
    ensures c in s
  {
    var t := TrimStart(s);
    assert c in t;
    DropWhileSuffix(s, IsSpace);
  }

  /** Every parsed tag is non-empty, has no surrounding whitespace and no
      comma; the tags are the non-empty trimmed pieces, in order, each as
      often as it occurs, duplicates included. */
  lemma ParseTagsShape(text: string)
    ensures var tags := ParseTags(text);
            && IsSubseq(tags, TrimEach(Split(text, ',')))
            && (forall t :: multiset(tags)[t] == if t == "" then 0 else multiset(TrimEach(Split(text, ',')))[t])
            && forall k :: 0 <= k < |tags| ==>
                 tags[k] != "" && Trim(tags[k]) == tags[k] && ',' !in tags[k]
  {
    var pieces := Split(text, ',');
    var trimmed := TrimEach(pieces);
    var tags := ParseTags(text);
    KeepSpec(trimmed, NonEmpty);
    forall k | 0 <= k < |tags|
      ensures tags[k] != "" && Trim(tags[k]) == tags[k] && ',' !in tags[k]
    {
      assert tags[k] in trimmed;
      var i :| 0 <= i < |trimmed| && trimmed[i] == tags[k];
      TrimTrim(pieces[i]);
      if ',' in tags[k] {
        TrimKeepsCharacters(pieces[i], ',');
      }
    }
  }

  /** `tags.join(", ")`, how the edit form shows stored tags. */
  function JoinTags(tags: seq<string>): string {
    Join(tags, ", ")
  }

  /** The pieces after the first, each with the space `join` put in front. */
  function Spaced(ts: seq<string>): (r: seq<string>)
    ensures |r| == |ts|
  {
    seq(|ts|, i requires 0 <= i < |ts| => " " + ts[i])
  }

  lemma {:induction false} SplitJoined(p: string, tags: seq<string>)
    requires tags != []
    requires ',' !in p && forall k :: 0 <= k < |tags| ==> ',' !in tags[k]
    ensures Split(p + JoinTags(tags), ',') == [p + tags[0]] + Spaced(tags[1..])
    decreases |tags|
  {
    if |tags| == 1 {
      SplitWithoutSeparator(p + tags[0], ',');
      assert Spaced(tags[1..]) == [];
    } else {
      var rest := tags[1..];
      assert JoinTags(tags) == tags[0] + ", " + JoinTags(rest);
      assert p + JoinTags(tags) == (p + tags[0]) + [','] + (" " + JoinTags(rest));
      SplitAtSeparator(p + tags[0], ',', " " + JoinTags(rest));
      forall k | 0 <= k < |rest| ensures ',' !in rest[k] {
        assert rest[k] == tags[k + 1];
      }
      SplitJoined(" ", rest);
      assert Spaced(rest) == [" " + rest[0]] + Spaced(rest[1..]);
    }
  }

  /** Trimming undoes the spaces `join` put in front. */
  lemma TrimSpaced(tags: seq<string>)
    requires tags != []
    requires forall k :: 0 <= k < |tags| ==> Trim(tags[k]) == tags[k]
    ensures TrimEach([tags[0]] + Spaced(tags[1..])) == tags
  {
    var pieces := [tags[0]] + Spaced(tags[1..]);
    forall k | 0 <= k < |tags| ensures TrimEach(pieces)[k] == tags[k] {
      if k > 0 {
        assert pieces[k] == [' '] + tags[k];
        TrimLeadingSpace(' ', tags[k]);
      }
    }
  }

  /** Joining stored tags for the edit form and parsing the box again gives
      the tags back, provided each is non-empty, comma-free and trimmed. */
  lemma TagsRoundTrip(tags: seq<string>)
    requires forall k :: 0 <= k < |tags| ==> tags[k] != "" && ',' !in tags[k] && Trim(tags[k]) == tags[k]
    ensures ParseTags(JoinTags(tags)) == tags
  {
    if tags == [] {
      assert TrimEach(Split("", ',')) == [""];
    } else {
      SplitJoined("", tags);
      assert "" + JoinTags(tags) == JoinTags(tags);
      assert "" + tags[0] == tags[0];
      TrimSpaced(tags);
      KeepAll(tags, NonEmpty);
    }
  }

  /** `formData.category || "Other"` */
  function CategoryOrDefault(category: string): (r: string)
    ensures r != ""
    ensures category != "" ==> r == category
    ensures category == "" ==> r == "Other"
  {
    if category == "" then "Other" else category
  }

  /** `Math.ceil(n / d)` for a non-negative count. */
  function CeilDiv(n: nat, d: nat): nat
    requires d > 0
  {
    (n + d - 1) / d
  }

  lemma CeilDivSpec(n: nat, d: nat)
    requires d > 0
    ensures var r := CeilDiv(n, d); d * (r - 1) < n <= d * r || (n == 0 && r == 0)
  {
  }

  /** The minutes in `readTime`: two hundred `" "`-separated pieces a
      minute, empty pieces included, rounded up. */
  function ReadMinutes(content: string): nat {
    CeilDiv(|Split(content, ' ')|, 200)
  }

  /** The reading time is the least whole number of minutes that covers the
      pieces at two hundred a minute; it is never zero, and empty content
      reads as one minute. */
  lemma ReadMinutesSpec(content: string)
    ensures var n := |Split(content, ' ')|; var r := ReadMinutes(content);
            && r >= 1 && 200 * (r - 1) < n <= 200 * r
    ensures content == "" ==> ReadMinutes(content) == 1
  {
    CeilDivSpec(|Split(content, ' ')|, 200);
  }

  /** `${minutes} min read` */
  function ReadTime(content: string): string {
    Decimal(ReadMinutes(content)) + " min read"
  }

  /** The estimate shown under the editor, which drops the empty pieces. */
  function ShownMinutes(content: string): nat {
    CeilDiv(|Keep(Split(content, ' '), NonEmpty)|, 200)
  }

  /** The on-screen estimate never exceeds the stored reading time; for
      empty content it is zero where the stored one is one minute. */
  lemma ShownAtMostStored(content: string)
    ensures ShownMinutes(content) <= ReadMinutes(content)
    ensures content == "" ==> ShownMinutes(content) == 0 && ReadMinutes(content) == 1
  {
    var n := |Split(content, ' ')|;
    var m := |Keep(Split(content, ' '), NonEmpty)|;
    assert m <= n;
    if content == "" {
      assert Split(content, ' ') == [""];
    }
  }

  /** The author block: the full name, else the username, and the avatar
      or nothing. */
  function AuthorOf(user: Accounts.User): Author {
    Author(if user.fullName != "" then user.fullName else user.username, user.avatar.GetOr(""))
  }

  /** The argument the create page passes to `createBlog`. */
  function DraftFrom(form: FormData, user: Accounts.User, status: Status, now: Timestamp): BlogDraft {
    BlogDraft(
      user.id, form.title, form.excerpt, form.content, form.coverImage, AuthorOf(user), now,
      ReadTime(form.content), CategoryOrDefault(form.category), ParseTags(form.tags), status,
      "", None)
  }

  /** The patch the edit page passes to `updateBlog`: no status, views,
      owner or timestamps. */
  function EditPatch(form: FormData): Patch {
    NoChanges.(
      title := Some(form.title),
      excerpt := Some(form.excerpt),
      content := Some(form.content),
      image := Some(form.coverImage),
      category := Some(CategoryOrDefault(form.category)),
      tags := Some(ParseTags(form.tags)),
      readTime := Some(ReadTime(form.content)))
  }

  /** The form as the edit page loads it from a stored record. */
  function FormOf(b: Blog): FormData {
    FormData(b.title, b.excerpt, b.content, b.category, JoinTags(b.tags), b.image)
  }
}
