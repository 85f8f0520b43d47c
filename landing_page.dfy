// The sample review on the public landing page
// (frontend/src/components/public/LandingPage.js): `buildDemoReview` scores a
// pasted draft from a few surface features and lists strengths and
// improvements; `handleRunDemo` refuses a blank draft. The typing animation,
// the navigation and the telemetry call are not part of this model.
module LandingPage {
  import opened Wrappers
  import opened Text
  import opened Js
  import opened Seqs
  import opened Words

  // ---------------------------------------------------------------------
  // Features of the draft
  // ---------------------------------------------------------------------

  function NotBlank(piece: string): bool { !IsBlank(piece) }

  /** `/[.!?]/`. */
  predicate IsTerminator(c: char) { c == '.' || c == '!' || c == '?' }

  /** `draft.split(/[.!?]+/).filter((s) => s.trim()).length`. */
  function SentenceCount(draft: string): nat
  {
    Count(SplitWhere(draft, IsTerminator), NotBlank)
  }

  /** The trimmed text of a draft that is not blank has at least one word. */
  lemma TrimmedDraftHasWords(draft: string)
    ensures Trim(draft) != "" ==> WordCount(Trim(draft)) >= 1
  {
    if Trim(draft) != "" {
      TrimIdempotent(draft);
      WordCountPositive(Trim(draft));
    }
  }

  /** `Math.round(words / sentences)` of two counts is a count. */
  lemma AverageIsNatural(words: nat, sentences: nat)
    ensures sentences > 0 ==> Round(words as real / sentences as real) >= 0
  {
    if sentences > 0 {
      RoundBetween(words as real / sentences as real, 0, words);
    }
  }

  /** `/\d/.test(draft)`. */
  predicate HasDigit(draft: string)
  {
    exists i :: 0 <= i < |draft| && IsDigit(draft[i])
  }

  /**
   * `/\bword\b/i.test(s)` for a lower-case word: the word, in any letter
   * case, with no word character on either side.
   */
  predicate HasWord(s: string, word: string)
  {
    exists i :: 0 <= i <= |s| && WordAt(s, word, i)
  }

  /** `word` occurs at position `i` of `s`, in any letter case, bounded by non-word characters. */
  predicate WordAt(s: string, word: string, i: int)
  {
    && 0 <= i && i + |word| <= |s| && Lower(s[i..i + |word|]) == word
    && (i == 0 || !IsWordChar(s[i - 1]))
    && (i + |word| == |s| || !IsWordChar(s[i + |word|]))
  }

  /** `/\b(I|my|me)\b/i`. */
  predicate HasPersonalVoice(draft: string)
  {
    HasWord(draft, "i") || HasWord(draft, "my") || HasWord(draft, "me")
  }

  /** `/\b(program|school|mba|masters|university)\b/i`. */
  predicate HasProgramWhy(draft: string)
  {
    || HasWord(draft, "program") || HasWord(draft, "school") || HasWord(draft, "mba")
    || HasWord(draft, "masters") || HasWord(draft, "university")
  }

  /** What the scorer reads off the trimmed prompt and draft. */
  datatype Features = Features(
    wordCount: nat,
    avgSentenceLength: int,
    hasNumbers: bool,
    hasPersonalVoice: bool,
    hasProgramWhy: bool,
    hasPrompt: bool)

  /**
   * The features of a prompt and a draft (either may be missing): no words
   * in a blank draft, and an average sentence length of 0 without sentences.
   */
  function FeaturesOf(prompt: Option<string>, draft: Option<string>): (f: Features)
    ensures IsBlank(draft.GetOr("")) ==> f.wordCount == 0 && f.avgSentenceLength == 0
    ensures !IsBlank(draft.GetOr("")) ==> f.wordCount >= 1
    ensures f.avgSentenceLength >= 0
    ensures f.hasPrompt <==> !IsBlank(prompt.GetOr(""))
  {
    var trimmedPrompt := Trim(prompt.GetOr(""));
    var trimmedDraft := Trim(draft.GetOr(""));
    var words := if trimmedDraft != "" then WordCount(trimmedDraft) else 0;
    var sentences := if trimmedDraft != "" then SentenceCount(trimmedDraft) else 0;
    TrimmedDraftHasWords(draft.GetOr(""));
    var avg := if sentences > 0 then Round(words as real / sentences as real) else 0;
    AverageIsNatural(words, sentences);
    Features(words, avg, HasDigit(trimmedDraft), HasPersonalVoice(trimmedDraft), HasProgramWhy(trimmedDraft),
             trimmedPrompt != "")
  }

  // ---------------------------------------------------------------------
  // Scoring
  // ---------------------------------------------------------------------

  /** `Math.max(lo, Math.min(hi, x))`. */
  function Clamp(x: int, lo: int, hi: int): (r: int)
    requires lo <= hi
    ensures lo <= r <= hi
    ensures lo <= x <= hi ==> r == x
  {
    if x < lo then lo else if x > hi then hi else x
  }

  /** The bonus each feature earns, summed: at most 38 points. */
  function Bonus(f: Features): (b: nat)
    ensures b <= 38
  {
    (if f.wordCount >= 180 then 12 else 0)
    + (if f.wordCount >= 260 then 6 else 0)
    + (if 11 <= f.avgSentenceLength <= 20 then 8 else 0)
    + (if f.hasNumbers then 5 else 0)
    + (if f.hasPersonalVoice then 4 else 0)
    + (if f.hasProgramWhy then 3 else 0)
  }

  /** The score: 62 plus the bonuses, clamped to 40..96. */
  function DemoScore(f: Features): int
  {
    Clamp(62 + Bonus(f), 40, 96)
  }

  /** The clamp's lower end never bites: every score lies in 62..96. */
  lemma DemoScoreBounds(f: Features)
    ensures 62 <= DemoScore(f) <= 96
    ensures Bonus(f) <= 34 ==> DemoScore(f) == 62 + Bonus(f)
  {
  }

  /** A draft with every feature scores the maximum, 96, and one with none the base, 62. */
  lemma DemoScoreExtremes(f: Features)
    ensures (f.wordCount >= 260 && 11 <= f.avgSentenceLength <= 20 && f.hasNumbers && f.hasPersonalVoice
             && f.hasProgramWhy) ==> DemoScore(f) == 96
    ensures (f.wordCount < 180 && !(11 <= f.avgSentenceLength <= 20) && !f.hasNumbers && !f.hasPersonalVoice
             && !f.hasProgramWhy) ==> DemoScore(f) == 62
  {
  }

  /** Gaining a feature never lowers the score. */
  lemma DemoScoreMonotone(f: Features, g: Features)
    requires f.wordCount <= g.wordCount && f.avgSentenceLength == g.avgSentenceLength
    requires f.hasNumbers ==> g.hasNumbers
    requires f.hasPersonalVoice ==> g.hasPersonalVoice
    requires f.hasProgramWhy ==> g.hasProgramWhy
    ensures DemoScore(f) <= DemoScore(g)
  {
  }

  // ---------------------------------------------------------------------
  // Strengths and improvements
  // ---------------------------------------------------------------------

  /** The remarks the review can make; `NoteText` gives their wording. */
  datatype Note =
    | Substance | AddDetail
    | PersonalVoice | FirstPerson
    | ConcreteFacts | MeasurableDetail
    | ProgramFit | TieToProgram
    | ShortenSentences | BalancedSentences

  function NoteText(n: Note): string
  {
    match n
    case Substance => "Draft has enough substance to evaluate narrative and clarity."
    case AddDetail => "Add detail: target at least 180-220 words for useful review depth."
    case PersonalVoice => "Personal voice is visible, which helps authenticity."
    case FirstPerson => "Use first-person examples to make the response feel specific and personal."
    case ConcreteFacts => "Includes concrete facts or metrics, which improves credibility."
    case MeasurableDetail => "Add one measurable detail (result, timeline, or scope)."
    case ProgramFit => "Mentions program fit, which aligns well with admissions expectations."
    case TieToProgram => "Tie your story back to program fit and why now."
    case ShortenSentences => "Shorten long sentences to improve readability."
    case BalancedSentences => "Sentence length is balanced and readable."
  }

  /** The review `buildDemoReview` returns. */
  datatype DemoReview = DemoReview(score: int, wordCount: nat, strengths: seq<Note>, improvements: seq<Note>)

  /** `notes.push(note)` when `raised`. */
  function Push(notes: seq<Note>, raised: bool, note: Note): seq<Note>
  {
    if raised then notes + [note] else notes
  }

  /** The strengths the length, voice and numbers checks raise. */
  function EarlyStrengths(f: Features): seq<Note>
  {
    var a := Push([], f.wordCount >= 180, Substance);
    var b := Push(a, f.hasPersonalVoice, PersonalVoice);
    Push(b, f.hasNumbers, ConcreteFacts)
  }

  /** The strengths the program and sentence-length checks raise. */
  function LateStrengths(f: Features): seq<Note>
  {
    var d := Push([], f.hasProgramWhy, ProgramFit);
    Push(d, f.avgSentenceLength <= 22 && f.avgSentenceLength >= 10, BalancedSentences)
  }

  /** Every strength the checks raise, in the order they are pushed. */
  function StrengthsOf(f: Features): seq<Note>
  {
    EarlyStrengths(f) + LateStrengths(f)
  }

  /** The improvements the length, voice and numbers checks raise. */
  function FeatureImprovements(f: Features): seq<Note>
  {
    var a := Push([], f.wordCount < 180, AddDetail);
    var b := Push(a, !f.hasPersonalVoice, FirstPerson);
    Push(b, !f.hasNumbers, MeasurableDetail)
  }

  /** The improvements the length, voice, numbers and program checks raise. */
  function EarlyImprovements(f: Features): seq<Note>
  {
    Push(FeatureImprovements(f), !f.hasProgramWhy && f.hasPrompt, TieToProgram)
  }

  /** Every improvement the checks raise, in the order they are pushed. */
  function ImprovementsOf(f: Features): seq<Note>
  {
    EarlyImprovements(f) + Push([], f.avgSentenceLength > 22, ShortenSentences)
  }

  /**
   * The strengths that survive the cut to three: the length, voice and
   * numbers checks each show their strength exactly when the draft has the
   * feature, and the later strengths appear only under their condition.
   */
  lemma StrengthNotes(f: Features)
    ensures var strengths := Take(StrengthsOf(f), 3);
      && (Substance in strengths <==> f.wordCount >= 180)
      && (PersonalVoice in strengths <==> f.hasPersonalVoice)
      && (ConcreteFacts in strengths <==> f.hasNumbers)
      && (ProgramFit in strengths ==> f.hasProgramWhy)
      && (BalancedSentences in strengths ==> 10 <= f.avgSentenceLength <= 22)
  {
    var early := EarlyStrengths(f);
    var late := LateStrengths(f);
    InEarlyStrengths(f, Substance);
    InEarlyStrengths(f, PersonalVoice);
    InEarlyStrengths(f, ConcreteFacts);
    InEarlyStrengths(f, ProgramFit);
    InEarlyStrengths(f, BalancedSentences);
    InLateStrengths(f, Substance);
    InLateStrengths(f, PersonalVoice);
    InLateStrengths(f, ConcreteFacts);
    InLateStrengths(f, ProgramFit);
    InLateStrengths(f, BalancedSentences);
    TakeKeepsShortPrefix(early, late, 3);
  }

  /** A note is among the early strengths exactly when its check raises it; there are at most three. */
  lemma InEarlyStrengths(f: Features, x: Note)
    ensures |EarlyStrengths(f)| <= 3
    ensures x in EarlyStrengths(f) <==>
      (f.wordCount >= 180 && x == Substance) || (f.hasPersonalVoice && x == PersonalVoice) || (f.hasNumbers && x == ConcreteFacts)
  {
  }

  /** A note is among the later strengths exactly when its check raises it. */
  lemma InLateStrengths(f: Features, x: Note)
    ensures x in LateStrengths(f) <==>
      (f.hasProgramWhy && x == ProgramFit) || (f.avgSentenceLength <= 22 && f.avgSentenceLength >= 10 && x == BalancedSentences)
  {
  }

  /**
   * The improvements that survive the cut to four: the length, voice and
   * numbers checks each ask for their improvement exactly when the draft
   * lacks the feature, the program check asks for fit exactly when the draft
   * never names the program but a prompt was given, and the advice on long
   * sentences appears only when they are long.
   */
  lemma ImprovementNotes(f: Features)
    ensures var improvements := Take(ImprovementsOf(f), 4);
      && (AddDetail in improvements <==> f.wordCount < 180)
      && (FirstPerson in improvements <==> !f.hasPersonalVoice)
      && (MeasurableDetail in improvements <==> !f.hasNumbers)
      && (TieToProgram in improvements <==> !f.hasProgramWhy && f.hasPrompt)
      && (ShortenSentences in improvements ==> f.avgSentenceLength > 22)
  {
    var early := EarlyImprovements(f);
    var late := Push([], f.avgSentenceLength > 22, ShortenSentences);
    InEarlyImprovements(f, AddDetail);
    InEarlyImprovements(f, FirstPerson);
    InEarlyImprovements(f, MeasurableDetail);
    InEarlyImprovements(f, TieToProgram);
    InEarlyImprovements(f, ShortenSentences);
    TakeKeepsShortPrefix(early, late, 4);
  }

  /** A note is among the early improvements exactly when its check raises it; there are at most four. */
  lemma InEarlyImprovements(f: Features, x: Note)
    ensures |EarlyImprovements(f)| <= 4
    ensures x in EarlyImprovements(f) <==>
      || (f.wordCount < 180 && x == AddDetail) || (!f.hasPersonalVoice && x == FirstPerson)
      || (!f.hasNumbers && x == MeasurableDetail) || (!f.hasProgramWhy && f.hasPrompt && x == TieToProgram)
  {
  }

  /** Cutting `prefix + rest` to `n` keeps all of a prefix no longer than `n`, and adds nothing. */
  lemma TakeKeepsShortPrefix(prefix: seq<Note>, rest: seq<Note>, n: nat)
    requires |prefix| <= n
    ensures forall x :: x in prefix ==> x in Take(prefix + rest, n)
    ensures forall x :: x in Take(prefix + rest, n) ==> x in prefix || x in rest
  {
    var t := Take(prefix + rest, n);
    forall x | x in prefix
      ensures x in t
    {
      var i :| 0 <= i < |prefix| && prefix[i] == x;
      assert t[i] == x;
    }
    forall x | x in t
      ensures x in prefix || x in rest
    {
      var i :| 0 <= i < |t| && t[i] == x;
      assert (prefix + rest)[i] == x;
    }
  }

  /**
   * The scoring half of `buildDemoReview`: the score accumulated bonus by
   * bonus, and the notes pushed check by check, then cut to three strengths
   * and four improvements.
   */
  method ReviewOf(f: Features) returns (review: DemoReview)
    ensures review.score == DemoScore(f) && review.wordCount == f.wordCount
    ensures review.strengths == Take(StrengthsOf(f), 3)
    ensures review.improvements == Take(ImprovementsOf(f), 4)
  {
    var score := ScoreOf(f);
    var strengths, improvements := NotesOf(f);
    review := DemoReview(score, f.wordCount, Take(strengths, 3), Take(improvements, 4));
  }

  /** The score: 62, the bonuses added check by check, then clamped to 40..96. */
  method ScoreOf(f: Features) returns (score: int)
    ensures score == DemoScore(f)
  {
    score := 62;
    if f.wordCount >= 180 { score := score + 12; }
    if f.wordCount >= 260 { score := score + 6; }
    if f.avgSentenceLength >= 11 && f.avgSentenceLength <= 20 { score := score + 8; }
    if f.hasNumbers { score := score + 5; }
    if f.hasPersonalVoice { score := score + 4; }
    if f.hasProgramWhy { score := score + 3; }
    assert score == 62 + Bonus(f);
    score := Clamp(score, 40, 96);
  }

  /** The strength and improvement notes, pushed check by check in the order of `buildDemoReview`. */
  method NotesOf(f: Features) returns (strengths: seq<Note>, improvements: seq<Note>)
    ensures strengths == StrengthsOf(f) && improvements == ImprovementsOf(f)
  {
    strengths, improvements := FeatureNotes(f);
    if f.hasProgramWhy {
      strengths := strengths + [ProgramFit];
    } else if f.hasPrompt {
      improvements := improvements + [TieToProgram];
    }
    assert improvements == EarlyImprovements(f);
    if f.avgSentenceLength > 22 {
      improvements := improvements + [ShortenSentences];
    } else if f.avgSentenceLength >= 10 {
      strengths := strengths + [BalancedSentences];
    }
  }

  /** The length, voice and numbers checks: each pushes its strength when the draft has the feature, else its improvement. */
  method FeatureNotes(f: Features) returns (strengths: seq<Note>, improvements: seq<Note>)
    ensures strengths == EarlyStrengths(f) && improvements == FeatureImprovements(f)
  {
    strengths := [];
    improvements := [];
    if f.wordCount >= 180 {
      strengths := strengths + [Substance];
    } else {
      improvements := improvements + [AddDetail];
    }
    if f.hasPersonalVoice {
      strengths := strengths + [PersonalVoice];
    } else {
      improvements := improvements + [FirstPerson];
    }
    if f.hasNumbers {
      strengths := strengths + [ConcreteFacts];
    } else {
      improvements := improvements + [MeasurableDetail];
    }
  }

  /** `buildDemoReview(prompt, draft)`: the features of the trimmed texts, scored. */
  method BuildDemoReview(prompt: Option<string>, draft: Option<string>) returns (review: DemoReview)
    ensures var f := FeaturesOf(prompt, draft);
      && review.score == DemoScore(f)
      && review.wordCount == f.wordCount
      && review.strengths == Take(StrengthsOf(f), 3)
      && review.improvements == Take(ImprovementsOf(f), 4)
    ensures 62 <= review.score <= 96
    ensures |review.strengths| <= 3 && |review.improvements| <= 4
  {
    var f := FeaturesOf(prompt, draft);
    review := ReviewOf(f);
    DemoScoreBounds(f);
  }

  /** What `handleRunDemo` leaves: the review shown, if any, and the error line. */
  datatype DemoRun = DemoRun(result: Option<DemoReview>, error: string)

  const BlankDraftError: string := "Paste a short draft first to get a sample review."

  /** `handleRunDemo`: a blank draft clears the review and sets the error; any other draft is scored. */
  method RunDemo(demoPrompt: string, demoDraft: string) returns (run: DemoRun)
    ensures IsBlank(demoDraft) <==> run.result.None?
    ensures IsBlank(demoDraft) ==> run.error == BlankDraftError
    ensures !IsBlank(demoDraft) ==> run.error == "" && run.result.value.wordCount >= 1
    ensures run.result.Some? ==> 62 <= run.result.value.score <= 96
    ensures run.result.Some? ==> var f := FeaturesOf(Some(demoPrompt), Some(demoDraft));
      run.result.value == DemoReview(DemoScore(f), f.wordCount, Take(StrengthsOf(f), 3), Take(ImprovementsOf(f), 4))
  {
    if IsBlank(demoDraft) {
      return DemoRun(None, BlankDraftError);
    }
    var review := BuildDemoReview(Some(demoPrompt), Some(demoDraft));
    run := DemoRun(Some(review), "");
  }
}
