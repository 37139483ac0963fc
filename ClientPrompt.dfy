/** The prompt builder the client imports (frontend/src/utils/dreamSchema.ts): renders a
    user context and a dream entry into the text sent to the model, asking for five
    labelled sections. The template literal is the list of its lines joined by line
    breaks; the optional fields fall back to their defaults with `??`. */
module ClientPrompt {
  import opened Wrappers
  import opened Text

  /** The three values `interpretationStyle` may take. */
  datatype Style = Psychological | Creative | Spiritual

  function StyleName(s: Style): string {
    match s
    case Psychological => "psychological"
    case Creative => "creative"
    case Spiritual => "spiritual"
  }

  datatype UserContext = UserContext(
    id: string,
    ageRange: Option<string>,
    culturalBackground: Option<string>,
    interpretationStyle: Option<Style>,
    preferredTone: Option<string>)

  /** The dream entry; `timestamp` is an opaque value in the source and an integer here. */
  datatype DreamEntry = DreamEntry(
    date: string,
    dreamText: string,
    emotionsInDream: seq<string>,
    moodBeforeSleep: Option<string>,
    timestamp: int,
    moodAfterWaking: Option<string>,
    sleepQuality: Option<string>,
    recurringSymbols: Option<seq<string>>,
    notes: Option<string>,
    response: Option<string>,
    userId: string,
    id: string)

  // The fixed lines of the template.
  const Intro := "You are a thoughtful and insightful dream interpreter who blends psychological understanding with symbolic analysis."
  const Guardrail := "Avoid mystical or predictive claims. Focus on emotional meaning and reflection."
  const ContextHeader := "User Context:"
  const FormatRequest := "Please format your response using these labeled sections exactly as shown:"
  const SummaryLabel := "\U{201A}\U{00FA}\U{00AE} Dream Summary"
  const SymbolicLabel := "\U{F8FF}\U{00FC}\U{00E9}\U{2202} Symbolic Meaning"
  const EmotionalLabel := "\U{201A}\U{00F9}\U{00A7}\U{00D4}\U{220F}\U{00E8} Emotional Insight"
  const CulturalLabel := "\U{F8FF}\U{00FC}\U{00E5}\U{00E7} Cultural Analysis"
  const ReflectionLabel := "\U{201A}\U{00F6}\U{2020}\U{00D4}\U{220F}\U{00E8} Reflection Prompt"
  /** The five labelled sections the model is asked for, in order. */
  const SectionLabels := [SummaryLabel, SymbolicLabel, EmotionalLabel, CulturalLabel, ReflectionLabel]
  const Closing := "Your response **MUST** contain all five sections listed below in the exact order and with the exact labels. Do not include any extra punctuation (like colons or dots) after the label text."

  // The labels that open the lines carrying a field.
  const StyleLabel := "- Interpretation Style: "
  const ToneLabel := "- Preferred Tone: "
  const AgeLabel := "- Age Range: "
  const CultureLabel := "- Cultural Background: "
  const EmotionsLabel := "Emotions in Dream: "
  const MoodBeforeLabel := "Mood Before Sleep: "
  const MoodAfterLabel := "Mood After Waking: "
  const SleepLabel := "Sleep Quality: "
  const SymbolsLabel := "Recurring Symbols: "
  const NotesLabel := "Notes: "

  /** The value shown for the interpretation style. */
  function StyleText(user: UserContext): string {
    if user.interpretationStyle.Some? then StyleName(user.interpretationStyle.value) else "psychological"
  }

  /** The number of lines of the template literal, counting the empty first and last. */
  const LineCount := 29

  /** Line `k` of the template literal, with each `${…}` filled in. */
  function Line(user: UserContext, dream: DreamEntry, k: nat): string
    requires k < LineCount
  {
    match k
    case 0 => ""
    case 1 => Intro
    case 2 => Guardrail
    case 3 => ""
    case 4 => ContextHeader
    case 5 => StyleLabel + StyleText(user)
    case 6 => ToneLabel + user.preferredTone.GetOr("gentle and reflective")
    case 7 => AgeLabel + user.ageRange.GetOr("N/A")
    case 8 => CultureLabel + user.culturalBackground.GetOr("N/A")
    case 9 => ""
    case 10 => "Dream Entry (" + dream.date + "):"
    case 11 => "\"" + dream.dreamText + "\""
    case 12 => ""
    case 13 => EmotionsLabel + Join(dream.emotionsInDream, ", ")
    case 14 => MoodBeforeLabel + dream.moodBeforeSleep.GetOr("N/A")
    case 15 => MoodAfterLabel + dream.moodAfterWaking.GetOr("N/A")
    case 16 => SleepLabel + dream.sleepQuality.GetOr("N/A")
    case 17 => SymbolsLabel + Join(dream.recurringSymbols.GetOr([]), ", ")
    case 18 => NotesLabel + dream.notes.GetOr("None")
    case 19 => ""
    case 20 => FormatRequest
    case 21 => SummaryLabel
    case 22 => SymbolicLabel
    case 23 => EmotionalLabel
    case 24 => CulturalLabel
    case 25 => ReflectionLabel
    case 26 => ""
    case 27 => Closing
    case _ => ""
  }

  /** The lines of the template literal. */
  function PromptLines(user: UserContext, dream: DreamEntry): seq<string> {
    seq(LineCount, k requires 0 <= k < LineCount => Line(user, dream, k))
  }

  /** `buildDreamPrompt(user, dream)`: total, with no error case. */
  function BuildDreamPrompt(user: UserContext, dream: DreamEntry): string {
    Join(PromptLines(user, dream), "\n")
  }

  /** Every inner line of the template stands whole, between line breaks, in the prompt. */
  lemma HasLine(user: UserContext, dream: DreamEntry, k: nat)
    requires 0 < k < LineCount - 1
    ensures ContainsLine(BuildDreamPrompt(user, dream), Line(user, dream, k))
  {
    JoinLine(PromptLines(user, dream), "\n", k);
  }

  /** A missing style renders as "psychological", a missing tone as "gentle and
      reflective", a missing age range or cultural background as "N/A", each on its own
      line. */
  lemma MissingContextDefaults(user: UserContext, dream: DreamEntry)
    ensures user.interpretationStyle.None? ==>
      ContainsLine(BuildDreamPrompt(user, dream), StyleLabel + "psychological")
    ensures user.preferredTone.None? ==>
      ContainsLine(BuildDreamPrompt(user, dream), ToneLabel + "gentle and reflective")
    ensures user.ageRange.None? ==>
      ContainsLine(BuildDreamPrompt(user, dream), AgeLabel + "N/A")
    ensures user.culturalBackground.None? ==>
      ContainsLine(BuildDreamPrompt(user, dream), CultureLabel + "N/A")
  {
    HasLine(user, dream, 5);
    if user.interpretationStyle.None? {
      assert Line(user, dream, 5) == StyleLabel + "psychological";
    }
    HasLine(user, dream, 6);
    if user.preferredTone.None? {
      assert Line(user, dream, 6) == ToneLabel + "gentle and reflective";
    }
    HasLine(user, dream, 7);
    if user.ageRange.None? {
      assert Line(user, dream, 7) == AgeLabel + "N/A";
    }
    HasLine(user, dream, 8);
    if user.culturalBackground.None? {
      assert Line(user, dream, 8) == CultureLabel + "N/A";
    }
  }

  /** Missing moods and sleep quality render as "N/A", missing notes as "None", missing
      recurring symbols as an empty list, each on its own line. */
  lemma MissingEntryDefaults(user: UserContext, dream: DreamEntry)
    ensures dream.moodBeforeSleep.None? ==>
      ContainsLine(BuildDreamPrompt(user, dream), MoodBeforeLabel + "N/A")
    ensures dream.moodAfterWaking.None? ==>
      ContainsLine(BuildDreamPrompt(user, dream), MoodAfterLabel + "N/A")
    ensures dream.sleepQuality.None? ==>
      ContainsLine(BuildDreamPrompt(user, dream), SleepLabel + "N/A")
    ensures dream.recurringSymbols.None? ==>
      ContainsLine(BuildDreamPrompt(user, dream), SymbolsLabel)
    ensures dream.notes.None? ==>
      ContainsLine(BuildDreamPrompt(user, dream), NotesLabel + "None")
  {
    HasLine(user, dream, 14);
    if dream.moodBeforeSleep.None? {
      assert Line(user, dream, 14) == MoodBeforeLabel + "N/A";
    }
    HasLine(user, dream, 15);
    if dream.moodAfterWaking.None? {
      assert Line(user, dream, 15) == MoodAfterLabel + "N/A";
    }
    HasLine(user, dream, 16);
    if dream.sleepQuality.None? {
      assert Line(user, dream, 16) == SleepLabel + "N/A";
    }
    HasLine(user, dream, 17);
    if dream.recurringSymbols.None? {
      assert Line(user, dream, 17) == SymbolsLabel;
    }
    HasLine(user, dream, 18);
    if dream.notes.None? {
      assert Line(user, dream, 18) == NotesLabel + "None";
    }
  }

  /** A missing field renders exactly as its default would if it were given. */
  lemma MissingIsDefault(user: UserContext, dream: DreamEntry)
    ensures BuildDreamPrompt(user.(interpretationStyle := None), dream)
         == BuildDreamPrompt(user.(interpretationStyle := Some(Psychological)), dream)
    ensures BuildDreamPrompt(user, dream.(recurringSymbols := None))
         == BuildDreamPrompt(user, dream.(recurringSymbols := Some([])))
    ensures BuildDreamPrompt(user, dream.(notes := None))
         == BuildDreamPrompt(user, dream.(notes := Some("None")))
  {
    assert PromptLines(user.(interpretationStyle := None), dream)
        == PromptLines(user.(interpretationStyle := Some(Psychological)), dream);
    assert PromptLines(user, dream.(recurringSymbols := None))
        == PromptLines(user, dream.(recurringSymbols := Some([])));
    assert PromptLines(user, dream.(notes := None))
        == PromptLines(user, dream.(notes := Some("None")));
  }

  /** `??` replaces only absent values: an empty note is kept, and the prompt differs from
      the one for a missing note. */
  lemma EmptyNotesKept(user: UserContext, dream: DreamEntry)
    ensures ContainsLine(BuildDreamPrompt(user, dream.(notes := Some(""))), NotesLabel)
    ensures BuildDreamPrompt(user, dream.(notes := Some(""))) != BuildDreamPrompt(user, dream.(notes := None))
  {
    var given, missing := dream.(notes := Some("")), dream.(notes := None);
    var empty, absent := PromptLines(user, given), PromptLines(user, missing);
    HasLine(user, given, 18);
    assert Line(user, given, 18) == NotesLabel;
    assert empty[..18] == absent[..18];
    assert empty[19..] == absent[19..];
    JoinReplace(empty, absent, "\n", 18);
  }

  /** The date and the dream text appear verbatim, each on its own line, the text in
      double quotes on the line right after the date; the emotions appear in order, separated by ", ", and no emotions
      leave the label alone on its line. */
  lemma EntryVerbatim(user: UserContext, dream: DreamEntry)
    ensures ContainsLine(BuildDreamPrompt(user, dream), "Dream Entry (" + dream.date + "):")
    ensures ContainsLine(BuildDreamPrompt(user, dream), "\"" + dream.dreamText + "\"")
    ensures ContainsLine(BuildDreamPrompt(user, dream), EmotionsLabel + Join(dream.emotionsInDream, ", "))
    ensures dream.emotionsInDream == [] ==> ContainsLine(BuildDreamPrompt(user, dream), EmotionsLabel)
    ensures Contains(BuildDreamPrompt(user, dream),
                     "\n" + ("Dream Entry (" + dream.date + "):") + "\n" + ("\"" + dream.dreamText + "\"") + "\n")
  {
    JoinPair(PromptLines(user, dream), "\n", 10);
    HasLine(user, dream, 10);
    HasLine(user, dream, 11);
    HasLine(user, dream, 13);
    if dream.emotionsInDream == [] {
      assert Line(user, dream, 13) == EmotionsLabel;
    }
  }

  /** The five section labels close the prompt's instructions, in order, one per line. */
  lemma SectionLabelsInOrder(user: UserContext, dream: DreamEntry)
    ensures Contains(BuildDreamPrompt(user, dream), "\n" + Join(SectionLabels, "\n") + "\n")
  {
    var lines := PromptLines(user, dream);
    var span := lines[21..26];
    forall k | 0 <= k < 5 ensures span[k] == SectionLabels[k] {
      assert span[k] == Line(user, dream, 21 + k);
    }
    assert span == SectionLabels;
    JoinSpan(lines, "\n", 21, 26);
  }

  /** The prompt does not depend on the identifiers, the timestamp or the stored
      response. */
  lemma IgnoresBookkeeping(user: UserContext, dream: DreamEntry, userId: string, entryId: string,
                           owner: string, timestamp: int, response: Option<string>)
    ensures BuildDreamPrompt(user, dream)
         == BuildDreamPrompt(user.(id := userId),
                             dream.(id := entryId, userId := owner, timestamp := timestamp, response := response))
  {
    assert PromptLines(user, dream)
        == PromptLines(user.(id := userId),
                       dream.(id := entryId, userId := owner, timestamp := timestamp, response := response));
  }
}
