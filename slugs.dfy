/** The slug a blog record carries, derived from its title by a chain of
    string rewrites: lower-case, strip everything but word characters,
    whitespace and hyphens, turn each run of whitespace into one hyphen,
    squash each run of hyphens into one, and trim. */
module Slugs {
  import opened Seqs
  import opened Text

  /** `s.replace(/P+/g, rep)` for a one-character class P: every maximal run
      of characters in P becomes the single character `rep`. */
  function ReplaceRuns(s: string, p: char -> bool, rep: char): string
    decreases |s|
  {
    if s == [] then []
    else if p(s[0]) then [rep] + ReplaceRuns(DropWhile(s, p), p, rep)
    else [s[0]] + ReplaceRuns(s[1..], p, rep)
  }

  /** A run rewrite starts with `rep` exactly when the string starts inside a
      run; every character it produces is `rep` or a character of the string
      outside P; and when `rep` is itself in P no two `rep`s end up adjacent. */
  lemma {:induction false} ReplaceRunsSpec(s: string, p: char -> bool, rep: char)
    ensures var r := ReplaceRuns(s, p, rep);
            && (s != [] ==> r != [] && r[0] == (if p(s[0]) then rep else s[0]))
            && (forall i :: 0 <= i < |r| ==> r[i] == rep || (r[i] in s && !p(r[i])))
            && (p(rep) ==> forall i :: 0 <= i < |r| - 1 ==> !(r[i] == rep && r[i + 1] == rep))
    decreases |s|
  {
    if s != [] {
      if p(s[0]) {
        var rest := DropWhile(s, p);
        ReplaceRunsSpec(rest, p, rep);
        DropWhileSuffix(s, p);
        assert forall c :: c in rest ==> c in s;
      } else {
        ReplaceRunsSpec(s[1..], p, rep);
        assert forall c :: c in s[1..] ==> c in s;
      }
    }
  }

  /** Where no two characters of P are adjacent, every run has length one and
      the rewrite is a character-by-character substitution. */
  lemma {:induction false} ReplaceIsolated(s: string, p: char -> bool, rep: char)
    requires forall i :: 0 <= i < |s| - 1 ==> !(p(s[i]) && p(s[i + 1]))
    ensures |ReplaceRuns(s, p, rep)| == |s|
    ensures forall i :: 0 <= i < |s| ==>
              ReplaceRuns(s, p, rep)[i] == if p(s[i]) then rep else s[i]
  {
    if s != [] {
      ReplaceIsolated(s[1..], p, rep);
      if p(s[0]) {
        assert DropWhile(s, p) == s[1..] by {
          if |s| > 1 { assert !p(s[1]); }
        }
      }
    }
  }

  /** A string in which every character of P is already `rep` and stands
      alone is left as it is. */
  lemma ReplaceRunsIdentity(s: string, p: char -> bool, rep: char)
    requires forall i :: 0 <= i < |s| && p(s[i]) ==> s[i] == rep
    requires forall i :: 0 <= i < |s| - 1 ==> !(p(s[i]) && p(s[i + 1]))
    ensures ReplaceRuns(s, p, rep) == s
  {
    ReplaceIsolated(s, p, rep);
  }

  /** The characters `[\w\s-]` that survive the first rewrite. */
  predicate Survives(c: char) {
    IsWordChar(c) || IsSpace(c) || c == '-'
  }

  predicate IsHyphen(c: char) {
    c == '-'
  }

  /** `.replace(/[^\w\s-]/g, "")` */
  function StripPunctuation(s: string): string {
    Keep(s, Survives)
  }

  /** The characters a slug is made of. */
  predicate IsSlugChar(c: char) {
    IsLower(c) || IsDigit(c) || c == '_' || c == '-'
  }

  /** The four `replace` steps of `generateSlug`, before its final `trim`. */
  function Rewritten(title: string): string {
    var stripped := StripPunctuation(Lower(title));
    var hyphenated := ReplaceRuns(stripped, IsSpace, '-');
    ReplaceRuns(hyphenated, IsHyphen, '-')
  }

  /** `generateSlug(title)` */
  function Slug(title: string): string {
    Trim(Rewritten(title))
  }

  /** After the four rewrites only `a-z`, `0-9`, `_` and `-` are left, with
      no two hyphens in a row; so the final trim has nothing to remove. */
  lemma RewrittenShape(title: string)
    ensures var r := Rewritten(title);
            && (forall i :: 0 <= i < |r| ==> IsSlugChar(r[i]))
            && (forall i :: 0 <= i < |r| - 1 ==> !(r[i] == '-' && r[i + 1] == '-'))
            && Slug(title) == r
  {
    var lowered := Lower(title);
    var stripped := StripPunctuation(lowered);
    assert forall c :: c in lowered ==> !IsUpper(c);
    KeepSpec(lowered, Survives);
    assert forall c :: c in stripped ==> IsSlugChar(c) || IsSpace(c);
    var hyphenated := ReplaceRuns(stripped, IsSpace, '-');
    ReplaceRunsSpec(stripped, IsSpace, '-');
    assert forall c :: c in hyphenated ==> IsSlugChar(c);
    var squashed := ReplaceRuns(hyphenated, IsHyphen, '-');
    ReplaceRunsSpec(hyphenated, IsHyphen, '-');
    assert forall c :: c in squashed ==> IsSlugChar(c);
    NoSpaceTrim(squashed);
  }

  /** Every slug is made of `a-z`, `0-9`, `_` and `-` only (so it has no
      whitespace) and never has two hyphens in a row. Leading and trailing
      hyphens are not excluded. */
  lemma SlugShape(title: string)
    ensures var r := Slug(title);
            && (forall i :: 0 <= i < |r| ==> IsSlugChar(r[i]))
            && (forall i :: 0 <= i < |r| - 1 ==> !(r[i] == '-' && r[i + 1] == '-'))
  {
    RewrittenShape(title);
  }

  /** A string of slug characters has no whitespace to trim. */
  lemma NoSpaceTrim(s: string)
    requires forall c :: c in s ==> IsSlugChar(c)
    ensures Trim(s) == s
  {
    if s != [] {
      assert s[0] in s && s[|s| - 1] in s;
    }
    TrimNoEdgeSpace(s);
  }

  /** A string already of slug shape is its own slug. */
  lemma SlugFixedPoint(u: string)
    requires forall i :: 0 <= i < |u| ==> IsSlugChar(u[i])
    requires forall i :: 0 <= i < |u| - 1 ==> !(u[i] == '-' && u[i + 1] == '-')
    ensures Slug(u) == u
  {
    assert Lower(u) == u;
    KeepAll(u, Survives);
    ReplaceRunsIdentity(u, IsSpace, '-');
    ReplaceRunsIdentity(u, IsHyphen, '-');
    NoSpaceTrim(u);
  }

  /** `generateSlug` is idempotent: a slug is its own slug. */
  lemma SlugIdempotent(title: string)
    ensures Slug(Slug(title)) == Slug(title)
  {
    SlugShape(title);
    SlugFixedPoint(Slug(title));
  }

  /** A title that starts with whitespace gets a slug that starts with a
      hyphen: the final `trim` runs after every whitespace run has become a
      hyphen, so it has nothing left to remove (" Hi" becomes "-hi"). */
  lemma LeadingSpaceKeepsHyphen(title: string)
    requires title != [] && IsSpace(title[0])
    ensures Slug(title) != [] && Slug(title)[0] == '-'
  {
    var lowered := Lower(title);
    assert lowered[0] == title[0];
    var stripped := StripPunctuation(lowered);
    assert stripped != [] && stripped[0] == title[0];
    var hyphenated := ReplaceRuns(stripped, IsSpace, '-');
    ReplaceRunsSpec(stripped, IsSpace, '-');
    ReplaceRunsSpec(hyphenated, IsHyphen, '-');
    RewrittenShape(title);
  }
}
