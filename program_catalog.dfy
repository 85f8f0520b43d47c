// The program catalog's entries and the identifier the backend derives for a
// new entry (backend/services/program_catalog.py). Loading and saving the
// catalog file are not part of this model: the catalog is a sequence of items.
module ProgramCatalog {
  import opened Text

  /**
   * One catalog entry. The four searchable fields are named; the remaining
   * fields (city, fee, deadlines, source, confidence) are carried as text
   * under their keys.
   */
  datatype CatalogItem = CatalogItem(
    id: string,
    schoolName: string,
    programName: string,
    degree: string,
    country: string,
    details: map<string, string>)

  /**
   * The item's school, program, degree or country, lower-cased, contains
   * the (already lower-cased) query: the search both the catalog page and
   * the catalog endpoint apply.
   */
  function MatchesCatalogQuery(needle: string): CatalogItem -> bool
  {
    (item: CatalogItem) =>
      || Contains(Lower(item.schoolName), needle) || Contains(Lower(item.programName), needle)
      || Contains(Lower(item.degree), needle) || Contains(Lower(item.country), needle)
  }

  /** The characters a slug keeps: `[a-z0-9]`. */
  predicate IsSlugChar(c: char) { IsLowerAlpha(c) || IsDigit(c) }

  /** What `build_program_id` promises of its result. */
  predicate IsSlug(s: string)
  {
    && s != []
    && (forall i :: 0 <= i < |s| ==> IsSlugChar(s[i]) || s[i] == '-')
    && s[0] != '-' && s[|s| - 1] != '-'
    && (forall i :: 0 <= i < |s| - 1 ==> s[i] != '-' || s[i + 1] != '-')
  }

  /** The characters of `s` a slug keeps or a single dash. */
  predicate DashSeparated(s: string)
  {
    && (forall i :: 0 <= i < |s| ==> IsSlugChar(s[i]) || s[i] == '-')
    && (forall i :: 0 <= i < |s| - 1 ==> s[i] != '-' || s[i + 1] != '-')
  }

  /** Drops the leading run of characters a slug does not keep. */
  function SkipRun(s: string): (r: string)
    ensures |r| <= |s| && r == s[|s| - |r|..]
    ensures r == [] || IsSlugChar(r[0])
  {
    if s != [] && !IsSlugChar(s[0]) then SkipRun(s[1..]) else s
  }

  /** `re.sub(r"[^a-z0-9]+", "-", s)`: every maximal run of other characters becomes one dash. */
  function Dashify(s: string): (r: string)
    ensures DashSeparated(r)
    ensures r != [] && r[0] == '-' ==> s != [] && !IsSlugChar(s[0])
    ensures r == [] <==> s == []
    decreases |s|
  {
    if s == [] then []
    else if IsSlugChar(s[0]) then [s[0]] + Dashify(s[1..])
    else "-" + Dashify(SkipRun(s[1..]))
  }

  /** `s.lstrip("-")`. */
  function StripLeadingDashes(s: string): (r: string)
    ensures |r| <= |s| && r == s[|s| - |r|..]
    ensures r == [] || r[0] != '-'
  {
    if s != [] && s[0] == '-' then StripLeadingDashes(s[1..]) else s
  }

  /** `s.rstrip("-")`. */
  function StripTrailingDashes(s: string): (r: string)
    ensures |r| <= |s| && r == s[..|r|]
    ensures r == [] || r[|r| - 1] != '-'
  {
    if s != [] && s[|s| - 1] == '-' then StripTrailingDashes(s[..|s| - 1]) else s
  }

  /** The substitution and `strip("-")` applied to the lower-cased, stripped text. */
  function SlugStep(raw: string): (slug: string)
  {
    StripTrailingDashes(StripLeadingDashes(Dashify(raw)))
  }

  /** `build_program_id(school_name, program_name, degree)`. */
  function BuildProgramId(schoolName: string, programName: string, degree: string): (id: string)
    ensures IsSlug(id)
  {
    var raw := Lower(Trim(schoolName + "-" + programName + "-" + degree));
    SlugShape(raw);
    DefaultIdIsSlug();
    var slug := SlugStep(raw);
    if slug == "" then DefaultId else slug
  }

  /** The id used when nothing of the names is left. */
  const DefaultId := "program"

  lemma DefaultIdIsSlug()
    ensures IsSlug(DefaultId)
  {
    assert forall i :: 0 <= i < |DefaultId| ==> IsLowerAlpha(DefaultId[i]);
  }

  /** Any slice of a dash-separated text is dash-separated. */
  lemma DashSeparatedSlice(s: string, i: nat, j: nat)
    requires DashSeparated(s) && i <= j <= |s|
    ensures DashSeparated(s[i..j])
  {
    var t := s[i..j];
    assert forall k :: 0 <= k < |t| ==> t[k] == s[i + k];
  }

  /** A dash-separated text stripped of dashes at both ends is a slug, unless it is empty. */
  lemma SlugShape(raw: string)
    ensures SlugStep(raw) == [] || IsSlug(SlugStep(raw))
  {
    var d := Dashify(raw);
    var a := StripLeadingDashes(d);
    DashSeparatedSlice(d, |d| - |a|, |d|);
    var b := StripTrailingDashes(a);
    DashSeparatedSlice(a, 0, |b|);
  }

  /** A text made of slug characters and single dashes is left alone by the substitution. */
  lemma {:induction false} DashifyOfDashSeparated(s: string)
    requires DashSeparated(s)
    ensures Dashify(s) == s
    decreases |s|
  {
    if s != [] {
      assert DashSeparated(s[1..]) by {
        assert forall i :: 0 <= i < |s[1..]| ==> s[1..][i] == s[i + 1];
      }
      if !IsSlugChar(s[0]) {
        assert s[1..] == [] || IsSlugChar(s[1]);
        assert SkipRun(s[1..]) == s[1..];
      }
      DashifyOfDashSeparated(s[1..]);
    }
  }

  /** A slug is already lower-case and has no surrounding whitespace. */
  lemma SlugIsNormalized(s: string)
    requires IsSlug(s)
    ensures Lower(Trim(s)) == s
  {
    TrimStartOfTrimmed(s);
    TrimEndOfTrimmed(s);
    assert Lower(s) == s;
  }

  /** Re-applying the normalisation and the slug step to an identifier returns it unchanged. */
  lemma BuildProgramIdStable(schoolName: string, programName: string, degree: string)
    ensures var id := BuildProgramId(schoolName, programName, degree);
      SlugStep(Lower(Trim(id))) == id
  {
    SlugStepOfSlug(BuildProgramId(schoolName, programName, degree));
  }

  /** The slug step leaves a slug alone. */
  lemma SlugStepOfSlug(id: string)
    requires IsSlug(id)
    ensures SlugStep(Lower(Trim(id))) == id
  {
    SlugIsNormalized(id);
    DashifyOfDashSeparated(id);
  }
}
