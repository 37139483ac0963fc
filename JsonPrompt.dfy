/** The JSON-instruction variant of the prompt builder (dreamSchema.ts): the same template
    idea, but it asks for a single fenced JSON object with five string keys and shows
    fewer context fields, with a different default for the cultural background. */
module JsonPrompt {
  import opened Wrappers
  import opened Text
  import ClientPrompt

  /** The dream entry of this variant: the stored response is a required string here. */
  datatype DreamEntry = DreamEntry(
    date: string,
    dreamText: string,
    emotionsInDream: seq<string>,
    moodBeforeSleep: Option<string>,
    timestamp: int,
    moodAfterWaking: Option<string>,
    response: string,
    userId: string,
    id: string,
    sleepQuality: Option<string>,
    recurringSymbols: Option<seq<string>>,
    notes: Option<string>)

  // The fixed lines of the template.
  const Intro := "You are a thoughtful and insightful dream interpreter who blends psychological understanding, symbolic analysis, and cross-cultural context."
  const Guardrail := "Avoid mystical or predictive claims. Focus on emotional meaning and reflection."
  const FenceInstruction := "**CRITICAL INSTRUCTION: Your entire response MUST be a single, valid JSON object, enclosed within a single pair of triple backticks (```) ONLY. Do NOT include any other text, explanation, or introduction outside of the backticks.**"
  const KeysInstruction := "The JSON object MUST contain exactly five (5) top-level keys in this precise order. The content for each key MUST be a simple string (do NOT use nested objects, arrays, or further JSON):"
  const SummaryKey := "1. summary: Provide a **detailed, 3-4 sentence summary** of the dream."
  const SymbolicKey := "2. symbolicMeaning: Provide a **comprehensive analysis** of the symbolic meanings of key elements, including relevant context for each symbol."
  const EmotionalKey := "3. emotionalInsight: Offer **deep, detailed psychological and emotional insights** into the dream's core conflicts and feelings."
  const CulturalKey := "4. culturalAnalysis: Provide the cultural analysis (you MUST specifically reference the dreamer's Cultural Background)."
  const ReflectionKey := "5. reflectionPrompt: Generate a **thoughtful and expansive reflective journaling prompt** that encourages deep introspection."
  const ContextHeader := "User Context for Analysis:"
  const Closing := "Please generate the content for the five JSON sections, ensuring the entire output is wrapped in ```json...```."

  /** The number of lines of the template literal, counting the empty first and last. */
  const LineCount := 27

  /** Line `k` of the template literal, with each `${…}` filled in. */
  function Line(user: ClientPrompt.UserContext, dream: DreamEntry, k: nat): string
    requires k < LineCount
  {
    match k
    case 0 => ""
    case 1 => Intro
    case 2 => Guardrail
    case 3 => ""
    case 4 => FenceInstruction
    case 5 => ""
    case 6 => KeysInstruction
    case 7 => ""
    case 8 => SummaryKey
    case 9 => SymbolicKey
    case 10 => EmotionalKey
    case 11 => CulturalKey
    case 12 => ReflectionKey
    case 13 => ""
    case 14 => ContextHeader
    case 15 => ClientPrompt.StyleLabel + ClientPrompt.StyleText(user)
    case 16 => ClientPrompt.ToneLabel + user.preferredTone.GetOr("gentle and reflective")
    case 17 => ClientPrompt.CultureLabel + user.culturalBackground.GetOr("General Western")
    case 18 => ""
    case 19 => "Dream Entry (" + dream.date + "):"
    case 20 => "\"" + dream.dreamText + "\""
    case 21 => ""
    case 22 => ClientPrompt.EmotionsLabel + Join(dream.emotionsInDream, ", ")
    case 23 => ClientPrompt.NotesLabel + dream.notes.GetOr("None")
    case 24 => ""
    case 25 => Closing
    case _ => ""
  }

  /** The lines of the template literal. */
  function PromptLines(user: ClientPrompt.UserContext, dream: DreamEntry): seq<string> {
    seq(LineCount, k requires 0 <= k < LineCount => Line(user, dream, k))
  }

  /** `buildDreamPrompt(user, dream)` of this variant: total, with no error case. */
  function BuildDreamPrompt(user: ClientPrompt.UserContext, dream: DreamEntry): string {
    Join(PromptLines(user, dream), "\n")
  }

  /** Every inner line of the template stands whole, between line breaks, in the prompt. */
  lemma HasLine(user: ClientPrompt.UserContext, dream: DreamEntry, k: nat)
    requires 0 < k < LineCount - 1
    ensures ContainsLine(BuildDreamPrompt(user, dream), Line(user, dream, k))
  {
    JoinLine(PromptLines(user, dream), "\n", k);
  }

  /** A missing style renders as "psychological", a missing tone as "gentle and
      reflective" and a missing cultural background as "General Western" (not "N/A"),
      each on its own line. */
  lemma MissingContextDefaults(user: ClientPrompt.UserContext, dream: DreamEntry)
    ensures user.interpretationStyle.None? ==>
      ContainsLine(BuildDreamPrompt(user, dream), ClientPrompt.StyleLabel + "psychological")
    ensures user.preferredTone.None? ==>
      ContainsLine(BuildDreamPrompt(user, dream), ClientPrompt.ToneLabel + "gentle and reflective")
    ensures user.culturalBackground.None? ==>
      ContainsLine(BuildDreamPrompt(user, dream), ClientPrompt.CultureLabel + "General Western")
  {
    HasLine(user, dream, 15);
    if user.interpretationStyle.None? {
      assert Line(user, dream, 15) == ClientPrompt.StyleLabel + "psychological";
    }
    HasLine(user, dream, 16);
    if user.preferredTone.None? {
      assert Line(user, dream, 16) == ClientPrompt.ToneLabel + "gentle and reflective";
    }
    HasLine(user, dream, 17);
    if user.culturalBackground.None? {
      assert Line(user, dream, 17) == ClientPrompt.CultureLabel + "General Western";
    }
  }

  /** Missing notes render as "None" on their own line. */
  lemma MissingNotesDefault(user: ClientPrompt.UserContext, dream: DreamEntry)
    requires dream.notes.None?
    ensures ContainsLine(BuildDreamPrompt(user, dream), ClientPrompt.NotesLabel + "None")
  {
    HasLine(user, dream, 23);
    assert Line(user, dream, 23) == ClientPrompt.NotesLabel + "None";
  }

  /** Present values, empty strings included, are shown as given. */
  lemma PresentValuesKept(user: ClientPrompt.UserContext, dream: DreamEntry)
    ensures user.preferredTone.Some? ==>
      ContainsLine(BuildDreamPrompt(user, dream), ClientPrompt.ToneLabel + user.preferredTone.value)
    ensures user.culturalBackground.Some? ==>
      ContainsLine(BuildDreamPrompt(user, dream), ClientPrompt.CultureLabel + user.culturalBackground.value)
    ensures dream.notes.Some? ==>
      ContainsLine(BuildDreamPrompt(user, dream), ClientPrompt.NotesLabel + dream.notes.value)
  {
    HasLine(user, dream, 16);
    HasLine(user, dream, 17);
    HasLine(user, dream, 23);
  }

  /** An empty note is kept, and the prompt differs from the one for a missing note. */
  lemma EmptyNotesKept(user: ClientPrompt.UserContext, dream: DreamEntry)
    ensures BuildDreamPrompt(user, dream.(notes := Some(""))) != BuildDreamPrompt(user, dream.(notes := None))
  {
    var given, missing := dream.(notes := Some("")), dream.(notes := None);
    var empty, absent := PromptLines(user, given), PromptLines(user, missing);
    assert |Line(user, given, 23)| + 4 == |Line(user, missing, 23)|;
    assert empty[..23] == absent[..23];
    assert empty[24..] == absent[24..];
    JoinReplace(empty, absent, "\n", 23);
  }

  /** The date and the quoted dream text appear verbatim, each on its own line, and the
      emotions in order, separated by ", ". */
  lemma EntryVerbatim(user: ClientPrompt.UserContext, dream: DreamEntry)
    ensures ContainsLine(BuildDreamPrompt(user, dream), "Dream Entry (" + dream.date + "):")
    ensures ContainsLine(BuildDreamPrompt(user, dream), "\"" + dream.dreamText + "\"")
    ensures ContainsLine(BuildDreamPrompt(user, dream), ClientPrompt.EmotionsLabel + Join(dream.emotionsInDream, ", "))
  {
    HasLine(user, dream, 19);
    HasLine(user, dream, 20);
    HasLine(user, dream, 22);
  }

  /** The prompt does not depend on the age range, the moods, the sleep quality, the
      recurring symbols, the identifiers, the timestamp or the stored response. */
  lemma IgnoresUnshownFields(user: ClientPrompt.UserContext, dream: DreamEntry,
                             ageRange: Option<string>, userId: string, other: DreamEntry)
    requires other.date == dream.date && other.dreamText == dream.dreamText
    requires other.emotionsInDream == dream.emotionsInDream && other.notes == dream.notes
    ensures BuildDreamPrompt(user, dream) == BuildDreamPrompt(user.(ageRange := ageRange, id := userId), other)
  {
    assert PromptLines(user, dream) == PromptLines(user.(ageRange := ageRange, id := userId), other);
  }
}
