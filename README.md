# DreamScapes core, modelled in Dafny

DreamScapes is a dream journal. The app sends a dream to a local language model (Ollama) and stores the interpretation in Firestore. This project models the parts of it whose behaviour can be stated exactly, and proves what they do:

- **JSON-candidate extraction** (`Extraction`, frontend/src/ollama.ts). From the model's raw text, `interpretDream` picks the string it hands to `JSON.parse`:
  - first, the group of the regular expression `/```json\s*([\s\S]*?)\s*```/i`, trimmed;
  - otherwise, the span from the first `{` to the last `}`;
  - otherwise, the trimmed text.

  The model specifies the regular expression by the match a backtracking matcher tries first among all matches, and computes that match. `JSON.parse` is a parameter.
- **Prompt builders** (`ClientPrompt`, frontend/src/utils/dreamSchema.ts; `JsonPrompt`, dreamSchema.ts). Each template literal is the list of its lines joined by line breaks. The lemmas state which line each field and each `??` default lands on, and which fields the prompt ignores.
- **Development user directory** (`UserDirectory`, frontend/src/services/dbAuth.ts). The `user` collection is an in-memory table. `UserTable` is a class holding the records and the next fresh document id:
  - `SignUp` checks the e-mail first, then the username;
  - it then inserts the document and writes its id into it;
  - `SignIn` only reads.

  Both are proved against the specification functions `SignUpResult`, `TableAfterSignUp` and `SignInResult`. The lemmas about those functions cover the error cases, the table invariant, and the sign-up-then-sign-in round trip.
- **Chat screen logic** (`DreamChat`, frontend/app/dreamchat.tsx). It covers:
  - the snapshot callback's filter loop (`BuildHistory`) and its newest-first stable sort;
  - the 150-character preview;
  - the send handler on a `ChatScreen` class: the empty-prompt guard, the state updates and the saved record.
- **Id generator** (`Nanoid`, frontend/src/shims/nanoid-non-secure.ts). It covers the character-appending loop over the 64-character alphabet, with the `Math.random()` draws supplied by the caller.

`Text` holds the JavaScript string operations these modules use: `trim()` with the ECMAScript white-space set, `indexOf`, `lastIndexOf`, `join`, and an ASCII `toLowerCase()`. `Wrappers` holds `Option` and `Result`.

## Model

| member | source | states |
|---|---|---|
| Text.Trim | frontend/src/ollama.ts:53 | the result has no white space at either end, is empty exactly when the input is all white space, and is a substring of the input |
| Text.TrimIs | frontend/src/ollama.ts:53 | `Trim` removes exactly the white space at both ends: for any split of the input into white space, a core that neither starts nor ends with white space, and white space, the result is that core |
| Text.IndexOfSpec | frontend/src/ollama.ts:62 | -1 exactly when the character is absent, otherwise the index of its first occurrence |
| Text.LastIndexOfSpec | frontend/src/ollama.ts:63 | -1 exactly when the character is absent, otherwise the index of its last occurrence |
| Text.Lower | frontend/src/services/dbAuth.ts:54 | same length, each character lower-cased (ASCII letters) |
| Text.Join | frontend/src/utils/dreamSchema.ts:44 | `join` with JavaScript's meaning: no contract of its own. `JoinSplit` states that joining splits at every element boundary, `JoinSpan` and `JoinLine` that consecutive elements stand between separators in the result, and `JoinReplace` that replacing one element changes the length by its own change |
| Extraction.FenceMatchOf | frontend/src/ollama.ts:56 | the match returned is a match of the pattern and is tried no later than any other match; there is none exactly when the pattern cannot match |
| Extraction.FenceCapture | frontend/src/ollama.ts:56-58 | `match[1]`, with no contract of its own. `CaptureBetweenFirstFences` states its value when fences are present (the trimmed interior, with no triple backtick), and `UntaggedFallsBack` states that without a `json` tag the fence branch is not taken |
| Extraction.MatchAtFirstFences | frontend/src/ollama.ts:56 | the pattern matches at the first `json`-tagged opening fence and stops at the first closing fence after it |
| Extraction.CaptureBetweenFirstFences | frontend/src/ollama.ts:56 | `match[1]` is the trimmed text between the first opening fence and the first closing fence after it, and it contains no triple backtick |
| Extraction.FenceBranch | frontend/src/ollama.ts:56-59 | with fences present, the candidate is the trimmed text between them; a blank interior gives an empty, falsy group and the brace search runs instead; a fenced candidate never contains a triple backtick |
| Extraction.UntaggedFallsBack | frontend/src/ollama.ts:56-66 | without a `json`-tagged fence (any letter case), a bare triple-backtick fence is ignored and the brace search decides |
| Extraction.BraceSpan | frontend/src/ollama.ts:61-66 | the brace fallback's result is always a substring of its input |
| Extraction.BraceSpanOrdered | frontend/src/ollama.ts:61-66 | when the first `{` comes before the last `}`, the candidate is exactly the inclusive span between them |
| Extraction.BraceSpanUnordered | frontend/src/ollama.ts:62-64 | when no `{` comes before a `}`, the text is left unchanged |
| Extraction.Candidate | frontend/src/ollama.ts:53-67 | the candidate handed to `JSON.parse` is always a substring of the trimmed raw text |
| Extraction.InterpretDream | frontend/src/ollama.ts:70-76 | success exactly when the candidate parses, returning the parsed value unchecked; otherwise the "LLM output format error" message |
| Extraction.FencedRoundTrip | frontend/src/ollama.ts:53-59 | a JSON text with no white space at its ends and no triple backtick, wrapped in a `json` fence, comes back unchanged as the candidate |
| Extraction.InterpretFenced | frontend/src/ollama.ts:53-76 | for such a fenced JSON text, `interpretDream` returns whatever `JSON.parse` gives for the text itself, or the format error |
| ClientPrompt.HasLine | frontend/src/utils/dreamSchema.ts:30-60 | every inner line of the template appears whole, between line breaks, in the prompt |
| ClientPrompt.BuildDreamPrompt | frontend/src/utils/dreamSchema.ts:30-60 | the template literal as its lines joined by line breaks, with no contract of its own. Its meaning is stated by `HasLine`, `MissingContextDefaults`, `MissingEntryDefaults`, `MissingIsDefault`, `EmptyNotesKept`, `EntryVerbatim`, `SectionLabelsInOrder` and `IgnoresBookkeeping` |
| ClientPrompt.MissingContextDefaults | frontend/src/utils/dreamSchema.ts:36-39 | a missing style renders as "psychological", a missing tone as "gentle and reflective", and a missing age range or cultural background as "N/A" |
| ClientPrompt.MissingEntryDefaults | frontend/src/utils/dreamSchema.ts:45-49 | missing moods and sleep quality render as "N/A", missing recurring symbols as an empty list, and missing notes as "None" |
| ClientPrompt.MissingIsDefault | frontend/src/utils/dreamSchema.ts:36-49 | an absent style, symbol list or note gives exactly the prompt its default value gives |
| ClientPrompt.EmptyNotesKept | frontend/src/utils/dreamSchema.ts:49 | an empty note is kept as given (`??` replaces only absent values), and the prompt differs from the one for a missing note |
| ClientPrompt.EntryVerbatim | frontend/src/utils/dreamSchema.ts:41-44 | the date and the quoted dream text appear verbatim on their lines, the text on the line right after `Dream Entry (<date>):`; the emotions appear in order joined by ", ", and an empty list leaves the label alone |
| ClientPrompt.SectionLabelsInOrder | frontend/src/utils/dreamSchema.ts:51-56 | the five section labels appear in order, one per line |
| ClientPrompt.IgnoresBookkeeping | frontend/src/utils/dreamSchema.ts:30-60 | the prompt does not depend on the ids, the owner, the timestamp or the stored response |
| JsonPrompt.HasLine | dreamSchema.ts:26-54 | every inner line of the template appears whole, between line breaks, in the prompt |
| JsonPrompt.BuildDreamPrompt | dreamSchema.ts:26-54 | the JSON-instruction template as its lines joined by line breaks, with no contract of its own. Its meaning is stated by `HasLine`, `MissingContextDefaults`, `MissingNotesDefault`, `PresentValuesKept`, `EmptyNotesKept`, `EntryVerbatim` and `IgnoresUnshownFields` |
| JsonPrompt.MissingContextDefaults | dreamSchema.ts:42-44 | a missing style renders as "psychological", a missing tone as "gentle and reflective", and a missing cultural background as "General Western" |
| JsonPrompt.MissingNotesDefault | dreamSchema.ts:50 | missing notes render as "None" |
| JsonPrompt.PresentValuesKept | dreamSchema.ts:42-50 | present tone, cultural background and notes, empty strings included, are shown as given |
| JsonPrompt.EmptyNotesKept | dreamSchema.ts:50 | an empty note gives a different prompt from a missing one |
| JsonPrompt.EntryVerbatim | dreamSchema.ts:46-49 | the date and the quoted dream text appear verbatim, and the emotions appear in order joined by ", " |
| JsonPrompt.IgnoresUnshownFields | dreamSchema.ts:26-53 | the prompt does not depend on the age range, the moods, the sleep quality, the recurring symbols, the ids, the timestamp or the stored response |
| UserDirectory.NormalizeEmailIdempotent | frontend/src/services/dbAuth.ts:54 | normalising an already normalised e-mail changes nothing |
| UserDirectory.NormalizeEmail | frontend/src/services/dbAuth.ts:54 | `trim().toLowerCase()`, also applied at line 30, with no contract of its own. `NormalizeEmailIdempotent` states it is idempotent, and `SignUpAppends` and `SignUpThenSignIn` that the stored and looked-up e-mails are normalised the same way |
| UserDirectory.FirstWhere | frontend/src/services/dbAuth.ts:57-62 | the equality query with `limit(1)` finds nothing exactly when no document has that value, and otherwise finds the first one that has it |
| UserDirectory.WithIdField | frontend/src/services/dbAuth.ts:84-86 | writing the id field changes only the document with that id |
| UserDirectory.SignInResult | frontend/src/services/dbAuth.ts:24-45 | the outcome of `signInWithDb`, with no contract of its own. `SignInCases` states each error case and the success value, `SignUpThenSignIn` the round trip with sign-up, and `EmptyPasswordNeverSignsIn` that an empty password never signs in |
| UserDirectory.SignUpResult | frontend/src/services/dbAuth.ts:47-95 | the outcome of `signUpWithDb`, with no contract of its own. `SignUpErrors` states both error cases and their precedence, and `SignUpAppends` the returned user |
| UserDirectory.TableAfterSignUp | frontend/src/services/dbAuth.ts:75-86 | the `user` collection after `signUpWithDb`, with no contract of its own. `SignUpErrors` states that a failure leaves it unchanged, `SignUpAppends` the one appended document, and `SignUpKeepsInvariant` that the uniqueness invariant holds |
| UserDirectory.SignInCases | frontend/src/services/dbAuth.ts:24-45 | "No account" exactly when no document has the normalised e-mail; otherwise "no password" for a missing or empty stored password, "Incorrect password" for a different one, and on success the account under its document id |
| UserDirectory.SignUpErrors | frontend/src/services/dbAuth.ts:56-72 | "email already registered" exactly when some document has the normalised e-mail, even if the username also collides; "username already taken" exactly when none does but some document has the username as typed; either failure leaves the table unchanged |
| UserDirectory.SignUpAppends | frontend/src/services/dbAuth.ts:75-95 | a successful sign-up appends exactly one document under the new id, whose id field is that id, and changes no other; it returns the input with the normalised e-mail and the new id |
| UserDirectory.AppendKeepsInvariant | frontend/src/services/dbAuth.ts:56-86 | appending a document with an unused id, its own id field, a normalised e-mail and an e-mail and username no other document has keeps the table invariant |
| UserDirectory.SignUpKeepsInvariant | frontend/src/services/dbAuth.ts:56-86 | in a table built by sign-ups, e-mails are normalised, and e-mails, usernames and ids stay pairwise distinct |
| UserDirectory.SignUpThenSignIn | frontend/src/services/dbAuth.ts:24-96 | after a successful sign-up with a non-empty password, signing in with an e-mail that normalises the same, and the same password, returns the account sign-up returned |
| UserDirectory.EmptyPasswordNeverSignsIn | frontend/src/services/dbAuth.ts:40-80 | an account created with an empty password can never sign in: it always gets "no password set" |
| UserDirectory.UserTable.SignIn | frontend/src/services/dbAuth.ts:24-45 | sign-in computes `SignInResult` and modifies nothing |
| UserDirectory.UserTable.SignUp | frontend/src/services/dbAuth.ts:47-96 | sign-up returns `SignUpResult`, leaves the table as `TableAfterSignUp` says, advances the id counter only on success, and keeps the invariant |
| DreamChat.OwnEntriesMembers | frontend/app/dreamchat.tsx:37-45 | an entry is kept exactly when it is the entry, with its doc id, of a document whose `userId` is the given one |
| DreamChat.EffectiveUserId | frontend/app/dreamchat.tsx:29 | the uid of the signed-in user, or "anonymous_dreamer" (also at lines 73 and 101), with no contract of its own. `HistorySpec` and `SavedIsShown` state that the history and the saved record both use it |
| DreamChat.OwnEntries | frontend/app/dreamchat.tsx:37-45 | the `forEach`/`push` filter, with no contract of its own. `OwnEntriesMembers` states which entries it keeps, and `BuildHistory` that the loop computes it |
| DreamChat.SortByRecency | frontend/app/dreamchat.tsx:48 | the sort as a stable insertion sort, with no contract of its own. `SortByRecencySpec` states that the result is newest first, a permutation and stable |
| DreamChat.SortByRecencySpec | frontend/app/dreamchat.tsx:48 | the sort puts the most recent first, is a permutation, and keeps equal timestamps in their original order |
| DreamChat.BuildHistory | frontend/app/dreamchat.tsx:36-50 | the filter loop followed by the sort computes the sorted own entries of the effective user |
| DreamChat.HistorySpec | frontend/app/dreamchat.tsx:29-50 | the history holds exactly the documents of the effective user ("anonymous_dreamer" when nobody is signed in) with their ids; it is newest first, a permutation of the filtered documents, and stable |
| DreamChat.Preview | frontend/app/dreamchat.tsx:135 | the preview is the first min(150, length) characters of the response followed by "...", which is always appended |
| DreamChat.SavedIsShown | frontend/app/dreamchat.tsx:70-89 | a saved conversation appears in its user's next history with its prompt and response unchanged |
| DreamChat.ChatScreen.HandleSendPrompt | frontend/app/dreamchat.tsx:62-99 | an empty prompt changes nothing and asks no model; otherwise the input is cleared, the model is asked once, and on success its text is shown and stored with the prompt as typed; any failure shows the error message and stores nothing |
| Nanoid.AlphabetRanks | frontend/src/shims/nanoid-non-secure.ts:1-2 | the alphabet has 64 characters, each at the position `Rank` gives it |
| Nanoid.AlphabetDistinct | frontend/src/shims/nanoid-non-secure.ts:1-2 | the 64 characters of the alphabet are pairwise distinct |
| Nanoid.DrawIndex | frontend/src/shims/nanoid-non-secure.ts:7 | `floor(r * 64)` for r in [0, 1) is a valid alphabet index |
| Nanoid.NewId | frontend/src/shims/nanoid-non-secure.ts:4-9 | the id has `size` characters (21 by default, none when `size` is not positive), each the alphabet character its draw selects |

## Left out

- The HTTP call to Ollama (`getOllamaResponse`) is not modelled. The raw model text is an input string, and a failed call is the `Failure` case of a `Result`.
- `JSON.parse` is a parameter of type `string -> Option<J>`. JSON itself is not re-implemented.
- Text.Lower: lower-cases only ASCII letters. `toLowerCase()` also maps other Unicode letters, so e-mail normalisation differs for non-ASCII addresses. For the fence pattern, matching the `json` tag in ASCII letter cases only is exact: without the `u` flag, JavaScript's case-insensitive matching maps no non-ASCII character to an ASCII letter.
- DreamChat.Preview: counts Unicode code points, where JavaScript's `substring` counts UTF-16 code units. The two differ only for characters outside the Basic Multilingual Plane.
- UserDirectory.FirstWhere: returns the first match in insertion order. Firestore returns `limit(1)` results in document-id order. Under the table invariant at most one document matches, so the order does not matter there.
- Document ids are natural numbers handed out by a counter. Firestore generates random strings. Only their freshness is modelled.
- The server timestamp (`serverTimestamp()`) is a parameter of the send handler. Pending or missing timestamps, which make the sort comparator return NaN, are not modelled.
- The spread `{ id: doc.id, ...data }` in the history callback also copies the stored `model` field. The `Entry` datatype keeps only the fields the `DreamEntry` interface declares.
- The `alert` shown for an empty prompt, `console.error`, and the loading spinner's intermediate `true` value are not modelled. Only the final value of `loading` is stated.
- Nanoid.NewId: takes an integer `size`. A fractional size, which the JavaScript loop rounds up, and NaN are not modelled. `Math.random()` is a sequence of draws in [0, 1).
- Concurrent sign-ups are not modelled. Two sign-ups racing between the uniqueness queries and the insert could both succeed in Firestore. Each model operation runs alone.
- The live `onSnapshot` subscription and `addDoc` calls are not modelled. The send handler appends to the `dreams` sequence, and `BuildHistory` is applied to a snapshot of it.
- The Firebase wrappers, the other screens, the React contexts, the type-only files and the build configuration are not part of this model. Neither is the second Ollama client in frontend/src/services/ollama.ts.
