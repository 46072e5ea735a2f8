/**
 * _generate_slug (admin/views.py): a URL slug from a post title. Character
 * classes are those of Python's regular expressions restricted to ASCII;
 * the fallback for a title with nothing usable is "post-" followed by the
 * clock's Unix timestamp, which is the parameter `timestamp`.
 */
module Slugs {
  import opened Text

  const MaxSlugLength := 180

  /** The class [-\s] of the collapsing substitution. */
  predicate IsSep(c: char) {
    c == '-' || IsSpace(c)
  }

  predicate IsHyphen(c: char) {
    c == '-'
  }

  predicate IsUpper(c: char) {
    'A' <= c <= 'Z'
  }

  /** What a slug is made of: lowercase word characters and hyphens. */
  predicate IsSlugChar(c: char) {
    (IsWordChar(c) && !IsUpper(c)) || c == '-'
  }

  predicate NoUpper(s: string) {
    forall i :: 0 <= i < |s| ==> !IsUpper(s[i])
  }

  predicate NoWordChar(s: string) {
    forall i :: 0 <= i < |s| ==> !IsWordChar(s[i])
  }

  predicate AllSep(s: string) {
    forall i :: 0 <= i < |s| ==> IsSep(s[i])
  }

  predicate NoSpace(s: string) {
    forall i :: 0 <= i < |s| ==> !IsSpace(s[i])
  }

  /** Only lowercase word characters, whitespace and hyphens. */
  predicate AllSlugSource(s: string) {
    forall i :: 0 <= i < |s| ==> (IsWordChar(s[i]) && !IsUpper(s[i])) || IsSep(s[i])
  }

  predicate AllSlugChars(s: string) {
    forall i :: 0 <= i < |s| ==> IsSlugChar(s[i])
  }

  predicate NoDoubleHyphen(s: string) {
    forall i :: 0 <= i < |s| - 1 ==> !(s[i] == '-' && s[i + 1] == '-')
  }

  /** The shape every generated slug has. */
  predicate WellFormedSlug(s: string) {
    && 1 <= |s| <= MaxSlugLength
    && AllSlugChars(s) && NoDoubleHyphen(s)
    && s[0] != '-' && s[|s| - 1] != '-'
  }

  /** re.sub(r'[^\w\s-]', '', s): keep word characters, whitespace and hyphens, in order. */
  function DropSpecials(s: string): (r: string)
    ensures |r| <= |s|
    ensures NoUpper(s) ==> AllSlugSource(r)
    ensures NoWordChar(s) ==> AllSep(r)
    ensures AllSlugChars(s) ==> r == s
    decreases |s|
  {
    if s == [] then []
    else
      var rest := DropSpecials(s[1..]);
      if IsWordChar(s[0]) || IsSep(s[0]) then [s[0]] + rest else rest
  }
  /** A character survives DropSpecials exactly when it occurs in the input and is a word character, whitespace or a hyphen. */
  lemma {:induction false} DropSpecialsMembers(s: string, c: char)
    ensures c in DropSpecials(s) <==> c in s && (IsWordChar(c) || IsSep(c))
    decreases |s|
  {
    if s != [] {
      DropSpecialsMembers(s[1..], c);
      assert s == [s[0]] + s[1..];
    }
  }


  /**
   * re.sub(r'[-\s]+', '-', s): every maximal run of hyphens and whitespace
   * becomes one hyphen. Read left to right: a separator followed by another
   * separator is dropped, the last separator of a run becomes '-'.
   */
  function Collapse(s: string): (r: string)
    ensures |r| <= |s|
    ensures r == [] <==> s == []
    ensures r != [] ==> (r[0] == '-' <==> IsSep(s[0]))
    ensures NoSpace(r) && NoDoubleHyphen(r)
    ensures AllSlugSource(s) ==> AllSlugChars(r)
    ensures AllSep(s) ==> r == [] || r == "-"
    ensures NoSpace(s) && NoDoubleHyphen(s) ==> r == s
    decreases |s|
  {
    if s == [] then []
    else if IsSep(s[0]) then
      if |s| > 1 && IsSep(s[1]) then Collapse(s[1..]) else "-" + Collapse(s[1..])
    else
      [s[0]] + Collapse(s[1..])
  }

  /** The slug before the length limit: lowercase, strip, drop specials, collapse, strip hyphens. */
  function Normalize(title: string): string {
    StripBy(Collapse(DropSpecials(Strip(Lower(title)))), IsHyphen)
  }

  /** "post-" and the timestamp's decimal digits. */
  function Fallback(timestamp: nat): string {
    "post-" + NatToString(timestamp)
  }

  /** _generate_slug. */
  function GenerateSlug(title: string, timestamp: nat): string {
    var slug := Normalize(title);
    var slug := if slug == [] then Fallback(timestamp) else slug;
    if |slug| > MaxSlugLength then DropWhileEnd(slug[..MaxSlugLength], IsHyphen) else slug
  }

  /** Stripping a lowercased title keeps it free of capitals and, if it had none, of word characters. */
  lemma StrippedLowered(title: string)
    ensures NoUpper(Strip(Lower(title)))
    ensures NoWordChar(title) ==> NoWordChar(Strip(Lower(title)))
  {
    var lowered := Lower(title);
    StrippedIsSlice(lowered);
    assert NoUpper(lowered);
    if NoWordChar(title) {
      assert NoWordChar(lowered);
    }
  }

  /** Every character of a stripped string is a character of the string. */
  lemma StrippedIsSlice(s: string)
    ensures forall i :: 0 <= i < |Strip(s)| ==> Strip(s)[i] == s[StripOffset(s, IsSpace) + i]
  {
    StripByShape(s, IsSpace);
  }

  /** A slice of a string made of slug characters without a double hyphen is again such a string. */
  lemma SliceKeepsShape(s: string, k: nat, n: nat)
    requires k + n <= |s|
    requires AllSlugChars(s) && NoDoubleHyphen(s)
    ensures AllSlugChars(s[k..k + n]) && NoDoubleHyphen(s[k..k + n])
  {
    var t := s[k..k + n];
    assert forall i :: 0 <= i < n ==> t[i] == s[k + i];
  }

  /** Collapsing what is left of the lowercased, stripped, filtered title gives slug characters without a double hyphen. */
  lemma CollapsedTitleShape(title: string)
    ensures var c := Collapse(DropSpecials(Strip(Lower(title))));
      AllSlugChars(c) && NoDoubleHyphen(c)
  {
    StrippedLowered(title);
    assert AllSlugSource(DropSpecials(Strip(Lower(title))));
  }

  /** Stripping the hyphens of such a string leaves nothing or a string with no hyphen at either end. */
  lemma StripHyphensShape(c: string)
    requires AllSlugChars(c) && NoDoubleHyphen(c)
    ensures var n := StripBy(c, IsHyphen);
      n == [] || (AllSlugChars(n) && NoDoubleHyphen(n) && n[0] != '-' && n[|n| - 1] != '-')
  {
    var n := StripBy(c, IsHyphen);
    StripByShape(c, IsHyphen);
    var k := StripOffset(c, IsHyphen);
    assert n == c[k..k + |n|];
    SliceKeepsShape(c, k, |n|);
  }

  /** Normalize gives the empty string or a well-formed slug of any length. */
  lemma NormalizeShape(title: string)
    ensures var n := Normalize(title);
      n == [] || (AllSlugChars(n) && NoDoubleHyphen(n) && n[0] != '-' && n[|n| - 1] != '-')
  {
    CollapsedTitleShape(title);
    StripHyphensShape(Collapse(DropSpecials(Strip(Lower(title)))));
  }

  /** The fallback is a well-formed slug: "post-" then at least one digit. */
  lemma FallbackShape(timestamp: nat)
    ensures var f := Fallback(timestamp);
      AllSlugChars(f) && NoDoubleHyphen(f) && f[0] != '-' && f[|f| - 1] != '-'
  {
    var d := NatToString(timestamp);
    var f := Fallback(timestamp);
    assert forall i :: 5 <= i < |f| ==> f[i] == d[i - 5];
  }

  /** Cutting a well-shaped string to the limit and dropping trailing hyphens keeps it well formed. */
  lemma TruncateKeepsShape(slug: string)
    requires |slug| > MaxSlugLength
    requires AllSlugChars(slug) && NoDoubleHyphen(slug) && slug[0] != '-'
    ensures WellFormedSlug(DropWhileEnd(slug[..MaxSlugLength], IsHyphen))
  {
    var cut := slug[..MaxSlugLength];
    SliceKeepsShape(slug, 0, MaxSlugLength);
    assert cut == slug[0..MaxSlugLength];
    var r := DropWhileEnd(cut, IsHyphen);
    assert r != [];
    SliceKeepsShape(cut, 0, |r|);
    assert r == cut[0..|r|];
  }

  /**
   * Every slug is well formed: 1..180 lowercase word characters and
   * hyphens, no whitespace, no hyphen at either end and never two in a row.
   */
  lemma SlugIsWellFormed(title: string, timestamp: nat)
    ensures WellFormedSlug(GenerateSlug(title, timestamp))
  {
    NormalizeShape(title);
    FallbackShape(timestamp);
    var n := Normalize(title);
    var slug := if n == [] then Fallback(timestamp) else n;
    if |slug| > MaxSlugLength {
      TruncateKeepsShape(slug);
    }
  }

  /** A well-formed slug survives lowercasing and stripping untouched. */
  lemma FixedUnderLowerStrip(s: string)
    requires WellFormedSlug(s)
    ensures Strip(Lower(s)) == s
  {
    assert Lower(s) == s;
    assert !IsSpace(s[0]) && !IsSpace(s[|s| - 1]);
    assert DropWhile(s, IsSpace) == s;
    assert DropWhileEnd(s, IsSpace) == s;
  }

  /** A slug is its own slug. */
  lemma WellFormedSlugIsFixedPoint(s: string, timestamp: nat)
    requires WellFormedSlug(s)
    ensures GenerateSlug(s, timestamp) == s
  {
    FixedUnderLowerStrip(s);
    assert DropSpecials(s) == s;
    assert NoSpace(s);
    assert Collapse(s) == s;
    assert DropWhile(s, IsHyphen) == s;
    assert DropWhileEnd(s, IsHyphen) == s;
  }

  /** Generating a slug from a slug changes nothing. */
  lemma GenerateSlugIdempotent(title: string, t1: nat, t2: nat)
    ensures GenerateSlug(GenerateSlug(title, t1), t2) == GenerateSlug(title, t1)
  {
    SlugIsWellFormed(title, t1);
    WellFormedSlugIsFixedPoint(GenerateSlug(title, t1), t2);
  }

  /** A title without a single word character normalizes to nothing. */
  lemma {:induction false} NoWordCharactersNormalizeToNothing(title: string)
    requires NoWordChar(title)
    ensures Normalize(title) == []
  {
    StrippedLowered(title);
    var c := Collapse(DropSpecials(Strip(Lower(title))));
    assert c == [] || c == "-";
    assert DropWhile("-", IsHyphen) == [];
  }

  /** A title without a single word character gets the timestamp fallback (cut to the limit only past 175 digits). */
  lemma NoWordCharactersFallsBack(title: string, timestamp: nat)
    requires NoWordChar(title)
    requires |Fallback(timestamp)| <= MaxSlugLength
    ensures GenerateSlug(title, timestamp) == Fallback(timestamp)
  {
    NoWordCharactersNormalizeToNothing(title);
  }
}
