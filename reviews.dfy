// The development stand-ins for the AI reviewer (backend/services/reviews.py):
// a mock review whose score depends only on the essay's word count, the
// score extractor that reads a review's `N/10` back, and a mock outline built
// from the student's bullet points. Floats are exact reals.
module Reviews {
  import opened Wrappers
  import opened Text
  import opened Seqs
  import opened Words
  import opened Numbers

  // ---------------------------------------------------------------------
  // Mock review
  // ---------------------------------------------------------------------

  /** The fields of an essay row the mock reviewer reads. */
  datatype Essay = Essay(schoolName: string, programType: string, content: string)

  /** The score of the mock review: three bands of word count. */
  function MockScore(wordCount: nat): (score: real)
    ensures score == 4.5 || score == 6.5 || score == 8.0
  {
    if wordCount < 100 then 4.5 else if wordCount < 300 then 6.5 else 8.0
  }

  /** A longer essay never scores lower. */
  lemma MockScoreMonotone(a: nat, b: nat)
    requires a <= b
    ensures MockScore(a) <= MockScore(b)
  {
  }

  /** The score as the review writes it. */
  function ScoreText(wordCount: nat): string
  {
    if wordCount < 100 then "4.5" else if wordCount < 300 then "6.5" else "8.0"
  }

  /** The name of the band in the assessment line. */
  function Label(wordCount: nat): string
  {
    if wordCount < 100 then "Developing" else if wordCount < 300 then "Good Foundation" else "Strong & Competitive"
  }

  const Banner: string := "**MOCK REVIEW MODE** " + "(Free Development Version)\n\n"

  const AssessmentLead: string := "**Overall Assessment: "

  /** The review up to its score: the banner and the assessment line's opening. */
  function Lead(wordCount: nat): string
  {
    Banner + AssessmentLead + Label(wordCount) + " ("
  }

  const Footer: string :=
    "\n---\n\U{1F4A1} *This is a simulated review. Enable Claude API for detailed, personalized feedback.*\n"

  /** The review after its `/10)**` line, with the essay's school, programme and word count filled in. */
  function Body(essay: Essay, wordCount: nat): string
  {
    var school := essay.schoolName;
    var program := essay.programType;
    var words := NatToString(wordCount);
    (if wordCount < 100 then
       "Your essay for " + school + "'s " + program + " program shows promise but needs significant development.\n\n"
       + "**Strengths:**\n- You've made a start on addressing the prompt\n- Basic structure is present\n\n"
       + "**Areas for Improvement:**\n1. **Length & Depth**: At " + words
       + " words, this essay is too brief. Most competitive essays are 500-650 words.\n"
       + "2. **Storytelling**: Add concrete anecdotes and experiences.\n"
       + "3. **Structure**: Consider reorganizing with a clear narrative arc.\n"
       + "4. **Specificity**: Replace general statements with specific details.\n\n"
       + "**Recommendations:**\n- Expand to at least 500 words\n"
       + "- Add 2-3 specific examples from your experience\n- Show, don't tell - use vivid descriptions\n"
     else if wordCount < 300 then
       "Your " + program + " application essay for " + school + " demonstrates good potential.\n\n"
       + "**Strengths:**\n- Adequate length (" + words + " words)\n- Clear attempt to address the prompt\n"
       + "- Some personal experiences included\n\n"
       + "**Areas for Improvement:**\n1. **Opening Impact**: Your introduction needs a stronger hook.\n"
       + "2. **Depth of Reflection**: Dig deeper into the \"why\" and \"so what\".\n"
       + "3. **School-Specific Content**: Add more specific references to " + school + ".\n"
       + "4. **Transitions**: Strengthen connections between sections.\n\n"
       + "**Score: 6.5/10** - Competitive foundation, needs refinement.\n"
     else
       "Excellent work on your " + program + " essay for " + school + "!\n\n"
       + "**Major Strengths:**\n- Compelling narrative with clear arc\n- Strong opening that engages the reader\n"
       + "- Specific examples with concrete details\n- Appropriate length: " + words + " words\n"
       + "- Authentic personal voice\n\n"
       + "**Minor Refinements:**\n1. Consider expanding one key section by 50-75 words\n"
       + "2. Weave in one more " + school + "-specific detail\n3. Polish transitions between paragraphs\n\n"
       + "**Competitiveness: HIGH** - This would be competitive at top programs.\n\n"
       + "**Score: 8.0/10** - You're in great shape!\n")
    + Footer
  }

  /** The review from its score on. */
  function Tail(essay: Essay, wordCount: nat): string
  {
    ScoreText(wordCount) + "/10)**\n\n" + Body(essay, wordCount)
  }

  /** `generate_mock_review`: the review text and its score. */
  function GenerateMockReview(essay: Essay): (r: (string, real))
    ensures r.1 == 4.5 || r.1 == 6.5 || r.1 == 8.0
  {
    var wordCount := WordCount(essay.content);
    (Lead(wordCount) + Tail(essay, wordCount), MockScore(wordCount))
  }

  // ---------------------------------------------------------------------
  // Score extraction
  // ---------------------------------------------------------------------

  /** The length of the longest prefix of `s` whose characters all satisfy `p`. */
  function RunOf(s: string, p: char -> bool): (n: nat)
    ensures n <= |s|
    ensures forall i :: 0 <= i < n ==> p(s[i])
    ensures n < |s| ==> !p(s[n])
  {
    if s != [] && p(s[0]) then 1 + RunOf(s[1..], p) else 0
  }

  /** A run is determined by where it stops. */
  lemma RunIs(s: string, p: char -> bool, k: nat)
    requires k <= |s|
    requires forall i :: 0 <= i < k ==> p(s[i])
    requires k < |s| ==> !p(s[k])
    ensures RunOf(s, p) == k
  {
  }

  /** The position past the whitespace that starts at `i`. */
  function SkipSpaces(s: string, i: nat): (j: nat)
    requires i <= |s|
    ensures i <= j <= |s|
    ensures forall k :: i <= k < j ==> IsSpace(s[k])
    ensures j < |s| ==> !IsSpace(s[j])
  {
    var t := s[i..];
    var g := RunOf(t, IsSpace);
    assert forall k :: i <= k < i + g ==> s[k] == t[k - i];
    i + g
  }

  /** Skipping whitespace stops at the first character that is not whitespace. */
  lemma SkipSpacesIs(s: string, i: nat, j: nat)
    requires i <= j <= |s|
    requires forall k :: i <= k < j ==> IsSpace(s[k])
    requires j < |s| ==> !IsSpace(s[j])
    ensures SkipSpaces(s, i) == j
  {
  }

  /**
   * Where the number at the start of `s` ends: after the run of digits and,
   * when a `.` and a digit follow it, after the run of digits past the `.`.
   */
  function NumberEnd(s: string): (m: nat)
    ensures RunOf(s, IsDigit) <= m <= |s|
    ensures var n := RunOf(s, IsDigit);
      m == n || (n + 1 < m && s[n] == '.' && forall i :: n < i < m ==> IsDigit(s[i]))
    ensures var n := RunOf(s, IsDigit);
      m > n || !(n + 1 < |s| && s[n] == '.' && IsDigit(s[n + 1]))
    ensures m > RunOf(s, IsDigit) && m < |s| ==> !IsDigit(s[m])
  {
    var n := RunOf(s, IsDigit);
    if n + 1 < |s| && s[n] == '.' && IsDigit(s[n + 1]) then
      var t := s[n + 1..];
      var f := RunOf(t, IsDigit);
      assert t[0] == s[n + 1];
      assert forall i :: n < i < n + 1 + f ==> s[i] == t[i - n - 1];
      assert n + 1 + f < |s| ==> s[n + 1 + f] == t[f];
      n + 1 + f
    else n
  }

  /** The number ends where a match says it does. */
  lemma NumberEndIs(s: string, n: nat, m: nat)
    requires n <= m < |s| && !IsDigit(s[m]) && s[m] != '.'
    requires RunOf(s, IsDigit) == n
    requires m == n || (n + 1 < m && s[n] == '.' && forall i :: n < i < m ==> IsDigit(s[i]))
    ensures NumberEnd(s) == m
  {
    if m > n {
      assert IsDigit(s[n + 1]);
      var e := NumberEnd(s);
      assert !(e < m);
      assert !(m < e);
    }
  }

  /**
   * The pattern `(\d+(?:\.\d+)?)\s*\/\s*10` matches at the start of `s` with
   * the whole digits `s[..n]`, the number `s[..m]`, the slash at `slash` and
   * the `10` at `ten`.
   */
  predicate MatchesWith(s: string, n: nat, m: nat, slash: nat, ten: nat)
  {
    && 1 <= n <= m <= slash < ten && ten + 2 <= |s|
    && (forall i :: 0 <= i < n ==> IsDigit(s[i]))
    && (m == n || (n + 1 < m && s[n] == '.' && forall i :: n < i < m ==> IsDigit(s[i])))
    && (forall i :: m <= i < slash ==> IsSpace(s[i]))
    && s[slash] == '/'
    && (forall i :: slash < i < ten ==> IsSpace(s[i]))
    && s[ten] == '1' && s[ten + 1] == '0'
  }

  /** `float(match.group(1))` for a match with whole digits `s[..n]` and number `s[..m]`. */
  function MatchValue(s: string, n: nat, m: nat): (v: real)
    requires n <= m <= |s|
    requires forall i :: 0 <= i < n ==> IsDigit(s[i])
    requires m == n || (n < m && forall i :: n < i < m ==> IsDigit(s[i]))
    ensures v >= 0.0
  {
    assert AllDigits(s[..n]);
    if m == n then DecimalValue(s[..n], "") else
      assert AllDigits(s[n + 1..m]);
      DecimalValue(s[..n], s[n + 1..m])
  }

  /** From `m` on: whitespace, `/`, whitespace and `10`. */
  predicate SlashTenAt(s: string, m: nat)
    requires m <= |s|
  {
    var slash := SkipSpaces(s, m);
    slash < |s| && s[slash] == '/' &&
    var ten := SkipSpaces(s, slash + 1);
    ten + 2 <= |s| && s[ten] == '1' && s[ten + 1] == '0'
  }

  /** The tail of the pattern is found where a match puts it. */
  lemma SlashTenIs(s: string, m: nat, slash: nat, ten: nat)
    requires m <= slash < ten && ten + 2 <= |s|
    requires forall i :: m <= i < slash ==> IsSpace(s[i])
    requires s[slash] == '/'
    requires forall i :: slash < i < ten ==> IsSpace(s[i])
    requires s[ten] == '1' && s[ten + 1] == '0'
    ensures SlashTenAt(s, m)
  {
    SkipSpacesIs(s, m, slash);
    SkipSpacesIs(s, slash + 1, ten);
  }

  /**
   * The number the pattern reads at the start of `s`: the longest run of
   * digits, then a `.` and the longest run of digits after it when there is
   * one, then whitespace, `/`, whitespace and `10`.
   */
  function ScoreAt(s: string): (v: Option<real>)
    ensures v.Some? ==> v.value >= 0.0
  {
    var whole := RunOf(s, IsDigit);
    var numberEnd := NumberEnd(s);
    if whole > 0 && SlashTenAt(s, numberEnd) then Some(MatchValue(s, whole, numberEnd)) else None
  }

  /**
   * `ScoreAt` is the pattern: it reads a number exactly when the pattern
   * matches at the start of `s`, and every way the pattern can match there
   * reads that same number. So the order in which the regular-expression
   * engine backtracks does not change `match.group(1)`.
   */
  lemma ScoreAtIsPattern(s: string)
    ensures ScoreAt(s).Some? <==> exists n, m, slash, ten :: MatchesWith(s, n, m, slash, ten)
    ensures forall n, m, slash, ten :: MatchesWith(s, n, m, slash, ten) ==> ScoreAt(s) == Some(MatchValue(s, n, m))
  {
    forall n, m, slash, ten | MatchesWith(s, n, m, slash, ten)
      ensures ScoreAt(s) == Some(MatchValue(s, n, m))
    {
      MatchDetermined(s, n, m, slash, ten);
    }
    if ScoreAt(s).Some? {
      ScoreAtHasMatch(s);
    }
  }

  /** The positions `ScoreAt` finds form a match. */
  lemma ScoreAtHasMatch(s: string)
    requires ScoreAt(s).Some?
    ensures var numberEnd := NumberEnd(s); var slash := SkipSpaces(s, numberEnd);
      MatchesWith(s, RunOf(s, IsDigit), numberEnd, slash, SkipSpaces(s, slash + 1))
  {
    assert RunOf(s, IsDigit) > 0 && SlashTenAt(s, NumberEnd(s));
    PositionsMatch(s);
  }

  lemma PositionsMatch(s: string)
    requires RunOf(s, IsDigit) > 0 && SlashTenAt(s, NumberEnd(s))
    ensures var numberEnd := NumberEnd(s); var slash := SkipSpaces(s, numberEnd);
      MatchesWith(s, RunOf(s, IsDigit), numberEnd, slash, SkipSpaces(s, slash + 1))
  {
  }

  /** Any match fixes every position `ScoreAt` finds. */
  lemma MatchDetermined(s: string, n: nat, m: nat, slash: nat, ten: nat)
    requires MatchesWith(s, n, m, slash, ten)
    ensures ScoreAt(s) == Some(MatchValue(s, n, m))
  {
    assert !IsDigit(s[n]) by {
      if m == n {
        assert n < slash ==> IsSpace(s[n]);
      }
    }
    RunIs(s, IsDigit, n);
    assert !IsDigit(s[m]) && s[m] != '.' by {
      assert m < slash ==> IsSpace(s[m]);
    }
    NumberEndIs(s, n, m);
    SlashTenIs(s, m, slash, ten);
  }

  /**
   * `extract_score`: the number before the leftmost `N/10` or `N.N / 10`
   * in the text, or 0 when there is none.
   */
  function ExtractScore(text: string): (score: real)
    ensures score >= 0.0
    decreases |text|
  {
    if text == [] then 0.0
    else match ScoreAt(text)
      case Some(v) => v
      case None => ExtractScore(text[1..])
  }

  /**
   * The extracted score is what the pattern reads at the leftmost position
   * where it matches, and 0 when it matches nowhere.
   */
  lemma {:induction false} ExtractScoreLeftmost(text: string, j: nat)
    requires j <= |text|
    requires forall k :: 0 <= k < j ==> ScoreAt(text[k..]).None?
    ensures j < |text| && ScoreAt(text[j..]).Some? ==> ExtractScore(text) == ScoreAt(text[j..]).value
    ensures j == |text| ==> ExtractScore(text) == 0.0
    decreases j
  {
    if j > 0 {
      assert ScoreAt(text[0..]).None? && text[0..] == text;
      var rest := text[1..];
      forall k | 0 <= k < j - 1 ensures ScoreAt(rest[k..]).None? {
        assert rest[k..] == text[k + 1..];
      }
      assert rest[j - 1..] == text[j..];
      ExtractScoreLeftmost(rest, j - 1);
    } else if |text| == 0 {
    } else {
      assert text[0..] == text;
    }
  }

  /** A text with no digit. */
  predicate NoDigits(s: string)
  {
    forall i :: 0 <= i < |s| ==> !IsDigit(s[i])
  }

  lemma NoDigitsConcat(a: string, b: string)
    requires NoDigits(a) && NoDigits(b)
    ensures NoDigits(a + b)
  {
  }

  /** A prefix without digits cannot hold a match, so the extractor reads past it. */
  lemma {:induction false} SkipNoDigits(prefix: string, text: string)
    requires NoDigits(prefix)
    ensures ExtractScore(prefix + text) == ExtractScore(text)
    decreases |prefix|
  {
    if prefix != [] {
      var s := prefix + text;
      RunIs(s, IsDigit, 0);
      assert s[1..] == prefix[1..] + text;
      SkipNoDigits(prefix[1..], text);
    } else {
      assert prefix + text == text;
    }
  }

  lemma BannerHasNoDigits()
    ensures NoDigits(Banner)
  {
    assert NoDigits("**MOCK REVIEW MODE** ");
    assert NoDigits("(Free Development Version)\n\n");
    NoDigitsConcat("**MOCK REVIEW MODE** ", "(Free Development Version)\n\n");
  }

  lemma LabelHasNoDigits(wordCount: nat)
    ensures NoDigits(Label(wordCount))
  {
  }

  /** The opening of every review, up to its score, holds no digit. */
  lemma LeadHasNoDigits(wordCount: nat)
    ensures NoDigits(Lead(wordCount))
  {
    BannerHasNoDigits();
    LabelHasNoDigits(wordCount);
    assert NoDigits(AssessmentLead);
    assert NoDigits(" (");
    NoDigitsConcat(Banner, AssessmentLead);
    NoDigitsConcat(Banner + AssessmentLead, Label(wordCount));
    NoDigitsConcat(Banner + AssessmentLead + Label(wordCount), " (");
  }

  /** A score text followed by `/10` reads back as the score. */
  lemma ScoreTextReadsBack(wordCount: nat, rest: string)
    ensures ScoreAt(ScoreText(wordCount) + "/10)**\n\n" + rest) == Some(MockScore(wordCount))
  {
    var t := ScoreText(wordCount);
    ScoreTextShape(wordCount);
    DigitDotDigitReadsBack(t, rest);
  }

  /** The score text is a digit, a point and a digit, which together make the mock score. */
  lemma ScoreTextShape(wordCount: nat)
    ensures var t := ScoreText(wordCount);
      && |t| == 3 && IsDigit(t[0]) && t[1] == '.' && IsDigit(t[2])
      && (t[0] as int - '0' as int) as real + (t[2] as int - '0' as int) as real / 10.0 == MockScore(wordCount)
  {
  }

  /** `d.d/10` at the start reads as the digit plus a tenth of the digit after the point. */
  lemma DigitDotDigitReadsBack(t: string, rest: string)
    requires |t| == 3 && IsDigit(t[0]) && t[1] == '.' && IsDigit(t[2])
    ensures ScoreAt(t + "/10)**\n\n" + rest)
      == Some((t[0] as int - '0' as int) as real + (t[2] as int - '0' as int) as real / 10.0)
  {
    var s := t + "/10)**\n\n" + rest;
    assert s[0] == t[0] && s[1] == '.' && s[2] == t[2];
    assert s[3] == '/' && s[4] == '1' && s[5] == '0';
    assert MatchesWith(s, 1, 3, 3, 4);
    MatchDetermined(s, 1, 3, 3, 4);
    assert s[..1] == [s[0]] && s[2..3] == [s[2]];
    assert DigitsValue(s[..1]) == s[0] as int - '0' as int;
    assert s[2..3][1..] == [];
    assert FractionValue(s[2..3]) == (s[2] as int - '0' as int) as real / 10.0;
  }

  /**
   * Reading the score back from a mock review gives the score the review
   * was generated with: the text states `(x/10)` before any text of the
   * essay's.
   */
  lemma MockReviewRoundTrip(essay: Essay)
    ensures ExtractScore(GenerateMockReview(essay).0) == GenerateMockReview(essay).1
  {
    var wordCount := WordCount(essay.content);
    var tail := Tail(essay, wordCount);
    LeadHasNoDigits(wordCount);
    SkipNoDigits(Lead(wordCount), tail);
    ScoreTextReadsBack(wordCount, Body(essay, wordCount));
    assert tail != [];
  }

  // ---------------------------------------------------------------------
  // Mock outline
  // ---------------------------------------------------------------------

  const DefaultPoints: seq<string> := ["Add a specific anecdote", "Link to school fit", "Close with future impact"]

  /** The first five cleaned points, topped up with the defaults when there are fewer than three. */
  function TopPoints(points: seq<string>): (r: seq<string>)
    ensures 3 <= |r| <= 5
  {
    var top := Take(CleanedPoints(points), 5);
    if |top| < 3 then top + DefaultPoints else top
  }

  /**
   * The outline works from three to five points: the first five cleaned
   * points, followed by all three defaults when fewer than three are left.
   */
  lemma TopPointsShape(points: seq<string>)
    ensures var cleaned := CleanedPoints(points);
      forall i :: 0 <= i < |cleaned| && i < 5 ==> TopPoints(points)[i] == cleaned[i]
    ensures var cleaned := CleanedPoints(points);
      |cleaned| < 3 ==> TopPoints(points) == cleaned + DefaultPoints
    ensures var cleaned := CleanedPoints(points);
      |cleaned| >= 3 ==> |TopPoints(points)| == if |cleaned| < 5 then |cleaned| else 5
  {
  }

  /** `max(70, int(target_word_count / 5))`. */
  function SectionBudget(target: int): (budget: int)
    ensures budget >= 70
    ensures target >= 350 ==> budget == target / 5
  {
    var share := Truncate(target as real / 5.0);
    if share > 70 then share else 70
  }

  /** `max(80, int(target_word_count * 0.18))`. */
  function IntroBudget(target: int): (budget: int)
    ensures budget >= 80
    ensures budget as real > target as real * 0.18 - 1.0
  {
    var share := Truncate(target as real * 0.18);
    if share > 80 then share else 80
  }

  /** `max(80, int(target_word_count * 0.15))`. */
  function ConclusionBudget(target: int): (budget: int)
    ensures budget >= 80
    ensures budget as real > target as real * 0.15 - 1.0
  {
    var share := Truncate(target as real * 0.15);
    if share > 80 then share else 80
  }

  /** The point at `k`, or `fallback` when there are not that many. */
  function PointOr(top: seq<string>, k: nat, fallback: string): string
  {
    if |top| > k then top[k] else fallback
  }

  /** A section heading with its word budget. */
  function Heading(title: string, budget: int): string
  {
    "### " + title + " (~" + IntToString(budget) + " words)"
  }

  function Bullet(text: string): string
  {
    "- " + text
  }

  function Bold(text: string): string
  {
    "**" + text + "**"
  }

  /** A section of the outline: its heading, two bullets and a blank line. */
  function Section(title: string, budget: int, first: string, second: string): seq<string>
  {
    [Heading(title, budget), Bullet(first), Bullet(second), ""]
  }

  /** The title and the lines about the school, the length and the prompt. */
  function Preamble(schoolName: string, programType: string, essayPrompt: string, target: int): seq<string>
  {
    [ "## Draft Outline (Mock Assist Mode)",
      Bullet(Bold("School / Program:") + " " + schoolName + " (" + programType + ")"),
      Bullet(Bold("Target Length:") + " ~" + IntToString(target) + " words"),
      Bullet(Bold("Prompt Focus:") + " " + essayPrompt),
      "" ]
  }

  /** The closing section, which has no blank line after it. */
  function Close(target: int, top: seq<string>): seq<string>
  {
    [Heading("5) Forward-Looking Close", ConclusionBudget(target)),
     Bullet("Reinforce long-term intent with: " + Bold(PointOr(top, 4, "clear post-program impact"))),
     Bullet("End with a concrete contribution statement.")]
  }

  /** The four sections between the preamble and the close. */
  function Body4(schoolName: string, target: int, top: seq<string>): seq<string>
    requires |top| >= 3
  {
    var budget := SectionBudget(target);
    Section("1) Hook + Context", IntroBudget(target),
            "Open with a vivid moment tied to: " + Bold(top[0]), "Establish why this moment matters now.")
    + Section("2) Core Experience #1", budget,
              "Build the story around: " + Bold(top[1]), "Show action, challenge, and measurable result.")
    + Section("3) Core Experience #2", budget,
              "Expand with: " + Bold(top[2]), "Add reflection: what changed in your perspective?")
    + Section("4) School Fit + Why Now", budget,
              "Connect your goals to " + schoolName + " offerings (courses, clubs, culture).",
              "Use this angle: " + Bold(PointOr(top, 3, "specific program fit and timing")))
  }

  /** The lines of the outline, for points `top` of at least three. */
  function OutlineLines(schoolName: string, programType: string, essayPrompt: string, target: int, top: seq<string>)
    : seq<string>
    requires |top| >= 3
  {
    Preamble(schoolName, programType, essayPrompt, target) + Body4(schoolName, target, top) + Close(target, top)
  }

  const NextSteps: seq<string> := [
    "Turn each section bullet into 2-4 concrete sentences before polishing tone.",
    "Include at least two measurable outcomes (numbers, scale, or scope).",
    "Reference 1-2 specific program elements to strengthen school fit."
  ]

  /** `generate_mock_outline`: the outline's lines joined by newlines, and the next steps. */
  function GenerateMockOutline(schoolName: string, programType: string, essayPrompt: string,
                               skeletonPoints: seq<string>, targetWordCount: int): (r: (string, seq<string>))
    ensures |r.1| == 3
  {
    TopPointsShape(skeletonPoints);
    (Join(OutlineLines(schoolName, programType, essayPrompt, targetWordCount, TopPoints(skeletonPoints)), "\n"),
     NextSteps)
  }

  /** A section heading of the outline. */
  predicate IsHeading(line: string)
  {
    |line| >= 4 && line[0] == '#' && line[1] == '#' && line[2] == '#' && line[3] == ' '
  }

  lemma HeadingIsHeading(title: string, budget: int)
    ensures IsHeading(Heading(title, budget))
  {
  }

  lemma BulletIsNotHeading(text: string)
    ensures !IsHeading(Bullet(text))
  {
  }

  /** A section holds one heading. */
  lemma SectionHeadings(title: string, budget: int, first: string, second: string)
    ensures Count(Section(title, budget, first, second), IsHeading) == 1
  {
    var rest := [Bullet(first), Bullet(second), ""];
    HeadingIsHeading(title, budget);
    BulletIsNotHeading(first);
    BulletIsNotHeading(second);
    FilterNone(rest, IsHeading);
    assert Section(title, budget, first, second) == [Heading(title, budget)] + rest;
  }

  lemma PreambleHeadings(schoolName: string, programType: string, essayPrompt: string, target: int)
    ensures Count(Preamble(schoolName, programType, essayPrompt, target), IsHeading) == 0
  {
    var pre := Preamble(schoolName, programType, essayPrompt, target);
    BulletIsNotHeading(pre[1][2..]);
    BulletIsNotHeading(pre[2][2..]);
    BulletIsNotHeading(pre[3][2..]);
    FilterNone(pre, IsHeading);
  }

  lemma CloseHeadings(target: int, top: seq<string>)
    ensures Count(Close(target, top), IsHeading) == 1
  {
    var close := Close(target, top);
    HeadingIsHeading("5) Forward-Looking Close", ConclusionBudget(target));
    BulletIsNotHeading(close[1][2..]);
    BulletIsNotHeading(close[2][2..]);
    FilterNone(close[1..], IsHeading);
    assert close == [close[0]] + close[1..];
  }

  lemma Body4Headings(schoolName: string, target: int, top: seq<string>)
    requires |top| >= 3
    ensures Count(Body4(schoolName, target, top), IsHeading) == 4
  {
    var budget := SectionBudget(target);
    var s1 := Section("1) Hook + Context", IntroBudget(target),
                      "Open with a vivid moment tied to: " + Bold(top[0]), "Establish why this moment matters now.");
    var s2 := Section("2) Core Experience #1", budget,
                      "Build the story around: " + Bold(top[1]), "Show action, challenge, and measurable result.");
    var s3 := Section("3) Core Experience #2", budget,
                      "Expand with: " + Bold(top[2]), "Add reflection: what changed in your perspective?");
    var s4 := Section("4) School Fit + Why Now", budget,
                      "Connect your goals to " + schoolName + " offerings (courses, clubs, culture).",
                      "Use this angle: " + Bold(PointOr(top, 3, "specific program fit and timing")));
    SectionHeadings("1) Hook + Context", IntroBudget(target),
                    "Open with a vivid moment tied to: " + Bold(top[0]), "Establish why this moment matters now.");
    SectionHeadings("2) Core Experience #1", budget,
                    "Build the story around: " + Bold(top[1]), "Show action, challenge, and measurable result.");
    SectionHeadings("3) Core Experience #2", budget,
                    "Expand with: " + Bold(top[2]), "Add reflection: what changed in your perspective?");
    SectionHeadings("4) School Fit + Why Now", budget,
                    "Connect your goals to " + schoolName + " offerings (courses, clubs, culture).",
                    "Use this angle: " + Bold(PointOr(top, 3, "specific program fit and timing")));
    FilterConcat(s1, s2, IsHeading);
    FilterConcat(s1 + s2, s3, IsHeading);
    FilterConcat(s1 + s2 + s3, s4, IsHeading);
  }

  /**
   * The outline has exactly five section headings: one per section and none
   * in the preamble.
   */
  lemma OutlineHeadings(schoolName: string, programType: string, essayPrompt: string, target: int, top: seq<string>)
    requires |top| >= 3
    ensures Count(OutlineLines(schoolName, programType, essayPrompt, target, top), IsHeading) == 5
  {
    var pre := Preamble(schoolName, programType, essayPrompt, target);
    var body := Body4(schoolName, target, top);
    var close := Close(target, top);
    PreambleHeadings(schoolName, programType, essayPrompt, target);
    Body4Headings(schoolName, target, top);
    CloseHeadings(target, top);
    FilterConcat(pre, body, IsHeading);
    FilterConcat(pre + body, close, IsHeading);
  }
}
