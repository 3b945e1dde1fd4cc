# CodeBot session context and rule-based NLP stages, in Dafny

This project models the core of CodeBot, a small rule-based chat bot:

- the **context manager**, which keeps one session context per user (user id,
  last intent, last entity, topic, and an append-only history of
  `{input, response}` exchanges). It covers the truthy-guarded `update`,
  `clear_context`, `save_context`, `load_context` with its error recovery,
  `manual_terminate`, the inactivity autosave `on_timeout`, `get_summary`, and
  the per-line command dispatch of the interactive loop (`exit`, `save`,
  anything else);
- the **NLP stages**: the stop-word tokenizer, the first-match keyword intent
  classifier, the dictionary part-of-speech tagger, the keyword entity
  recognizer and the intent-to-response table;
- **`CodeBot.handle_input`**, which composes tokenizer, classifier, the bot's
  own reply table and `update`.

Everything is a pure function over immutable values. A `ContextManager.Manager`
is the state of one manager object. The context files are an abstract
`ContextManager.Store`, a map from the file path `session_context_<user>.json`
to a `FileState`; distinct path strings are distinct files. A file either holds a saved context or is corrupt, meaning
it does not parse. An I/O error while reading is a boolean parameter of
`Load`. The pending inactivity timer is reduced to the `timerArmed` flag:
`update` arms it and `on_timeout` consumes it.

Python's `str.lower`, `str.split()`, `str.strip()` and `str.isspace` are
modelled on ASCII in module `Text`. Whitespace is tab, line feed, vertical tab,
form feed, carriage return, 0x1C-0x1F and space, as Python's `str.isspace`
defines it.

There is one module per source file: `Tokenizer`, `IntentClassifier`,
`PosTagger`, `EntityRecognizer`, `ResponseGenerator`, `ContextManager` and
`CodeBot`. Two support modules hold the string primitives (`Text`) and the
optional values (`Optional`).

Behaviour of the code worth knowing:

- The context file is plain JSON; nothing is encrypted. The only detected
  corruption is content that is not valid JSON.
- No operation is refused after `manual_terminate`; there is no closed-session
  error. `update` and `load_context` still change the context, and
  `save_context` silently does nothing. (`manual_terminate` itself ends with
  `sys.exit(0)`, which is not modelled.)
- `manual_terminate` does not cancel the timer. A timer that fires after
  termination saves nothing (`ContextManager.TerminateIsFinal`).
- `clear_context` sets the stored `user_id` key to `None` as well. Only the
  manager's own `user_id` attribute is unchanged.
- `update` records an exchange only when input and response are both truthy.
  An empty string counts as absent.

Observations the proofs make explicit:

- The bye keyword "see you" can never equal a token the tokenizer produces
  (`IntentClassifier.SeeYouNeverMatches`).
- Tokenized text never receives the PRON or DET tags
  (`PosTagger.TokenizedNeverPronOrDet`).
- The bot's fallback reply differs from the response generator's fallback
  (`CodeBot.BotReplyVersusGenerator`).

## Model

| member | source | states |
|---|---|---|
| `ContextManager.New` | context_manager.py:10-24 | a new manager has the context user id set, intent, entity and topic all None, empty history, is not terminated and has no timer pending |
| `ContextManager.Update` | context_manager.py:36-49 | intent, entity and topic are each overwritten only by a truthy argument; user id and termination are unchanged; the history keeps its old entries as a prefix and gains exactly one entry `{input, response}` at the end iff both are truthy; the timer is armed |
| `ContextManager.HistoryAfterUpdates` | context_manager.py:45-46 | after any run of updates the history is the old history followed by the exchanges of exactly the recording calls, in call order; the user id never changes |
| `ContextManager.IntentKeptWithoutTruthyIntent` | context_manager.py:39-40 | updates without a truthy intent never change the last intent |
| `ContextManager.LastIntentWins` | context_manager.py:39-40 | after a run of updates the last intent is that of the latest call with a truthy intent |
| `ContextManager.Clear` | context_manager.py:104-108 | every context key, user id included, becomes None and the history empty; the manager's user id, termination flag and timer are untouched |
| `ContextManager.ClearIdempotent` | context_manager.py:104-107 | clearing twice gives the same state as clearing once |
| `ContextManager.Save` | context_manager.py:63-69 | unless terminated, the user's file afterwards holds the current context; when terminated nothing changes; no other file ever changes |
| `ContextManager.Load` | context_manager.py:84-102 | missing file: context unchanged; parsable file: context replaced wholesale by its content; corrupt file or I/O error: context reset to the fresh context of the manager's own user id; user id, termination and timer never change |
| `ContextManager.ContextPathInjective` | context_manager.py:22 | two user ids with the same context file path are equal |
| `ContextManager.SaveThenLoad` | context_manager.py:63-89 | a manager of the same user loads back exactly the context a live manager saved |
| `ContextManager.SlotsIsolated` | context_manager.py:22 | saving for one user never changes what a manager of another user loads |
| `ContextManager.CorruptFileResets` | context_manager.py:91-100 | loading a corrupt file, with or without an I/O error, yields the fresh context and changes nothing else |
| `ContextManager.Terminate` | context_manager.py:76-81 | the final context is saved before the session becomes terminated, and the context itself is unchanged; no other file changes |
| `ContextManager.OnTimeout` | context_manager.py:58-61 | a pending timer's firing saves the context unless terminated, and leaves no timer pending; no file other than the user's own changes |
| `ContextManager.TerminateIsFinal` | context_manager.py:63-82 | after termination a new manager loads the final context; later saves, autosaves and repeated terminations change no file |
| `ContextManager.GetSummary` | context_manager.py:111-117 | the summary reports exactly the topic, last intent and last entity of the context |
| `ContextManager.SummaryFacts` | context_manager.py:104-117 | a cleared context summarizes to all None; an update that only records an exchange leaves the summary unchanged |
| `ContextManager.RecordLine` | context_manager.py:128-130 | an ordinary line changes no context field but the history, which gains `{line, fixed reply}` iff the line is non-empty; the timer is armed |
| `ContextManager.Step` | context_manager.py:122-131 | on the stripped, lower-cased line: "exit" terminates after saving; "save" saves and leaves the manager unchanged; anything else leaves the store unchanged, changes no context field but the history, and appends `{line, fixed reply}` iff the line is non-empty |
| `ContextManager.StepTerminatesIffExit` | context_manager.py:122-131 | a live session terminates on a line exactly when its stripped, lower-cased form is "exit", and the store changes only on "exit" or "save" |
| `ContextManager.ExitLineTerminates` | context_manager.py:123-125 | the line " EXIT" followed by a tab is stripped and lower-cased to the exit command and terminates the session |
| `Text.Lower` | nlp_pipeline/tokenizer.py:7 | `str.lower()`, also called at nlp_pipeline/entity_recognizer.py:6 and context_manager.py:123: the result has the input's length and no upper-case letter, each character is the ASCII lowering of the input's character at that position (whitespace stays whitespace), and text without upper-case letters is returned unchanged |
| `Text.Words` | nlp_pipeline/tokenizer.py:7 | whitespace splitting yields only non-empty words without whitespace, no more words than characters, and keeps lower-case text lower-case (the split itself is pinned down by the next two lemmas) |
| `Text.WordsSkipsSpace` | nlp_pipeline/tokenizer.py:7 | whitespace in front of a string contributes no words |
| `Text.WordsAfterWord` | nlp_pipeline/tokenizer.py:7 | a word followed by a non-empty whitespace run (or ending the string) is split off as the first word, and splitting continues on the rest |
| `Text.WordsJoin` | nlp_pipeline/tokenizer.py:7 | splitting the space-join of genuine words gives those words back |
| `Text.Strip` | context_manager.py:123 | the stripped line is a contiguous piece of the line with only whitespace cut off at either end and no whitespace at its own ends |
| `Tokenizer.RemoveStopwords` | nlp_pipeline/tokenizer.py:8 | the result is an order-preserving subsequence of the words keeping every occurrence of a non-stop-word with its multiplicity and no occurrence of a stop word, and is the input itself when no stop word occurs |
| `Tokenizer.Tokenize` | nlp_pipeline/tokenizer.py:5-9 | every token is a non-empty, whitespace-free, lower-case non-stop-word; the tokens are an order-preserving subsequence of the whitespace-split lower-cased text keeping each non-stop-word as often as it occurs there and no stop word |
| `Tokenizer.TokenizeIdempotent` | nlp_pipeline/tokenizer.py:7-8 | tokenizing the space-joined tokens yields the same tokens |
| `IntentClassifier.FirstMatch` | nlp_pipeline/intent_classifier.py:11-14 | the index found is the first table row whose keywords occur among the tokens, or the table length when none does |
| `IntentClassifier.RecognizeIntent` | nlp_pipeline/intent_classifier.py:4-14 | the intent is one of greet, bye, ask_for_help, unknown, chosen in priority order greet, bye, ask_for_help by exact token matches; unknown iff no keyword of any intent occurs |
| `IntentClassifier.MembershipOnly` | nlp_pipeline/intent_classifier.py:12 | token lists with the same members get the same intent, whatever their order or repetitions |
| `IntentClassifier.SeeYouNeverMatches` | nlp_pipeline/intent_classifier.py:6 | "see you" is never a token, so on tokenized text bye is recognized exactly when no greet keyword and one of bye, goodbye, exit occurs |
| `PosTagger.TagOf` | nlp_pipeline/pos_tagger.py:4-11 | a token's tag is its table entry when it has one and UNK otherwise, always one of INTJ, PRON, VERB, DET, NOUN, UNK |
| `PosTagger.Tag` | nlp_pipeline/pos_tagger.py:2-11 | one pair per token, in order; the i-th pair is the i-th token with its tag |
| `PosTagger.CaseSensitive` | nlp_pipeline/pos_tagger.py:6 | "I" is tagged PRON while "i" is tagged UNK |
| `PosTagger.TagConcat` | nlp_pipeline/pos_tagger.py:11 | tagging a concatenation is concatenating the taggings |
| `PosTagger.TokenizedNeverPronOrDet` | nlp_pipeline/pos_tagger.py:4-11 | no tag of tokenizer output is PRON or DET |
| `EntityRecognizer.Recognize` | nlp_pipeline/entity_recognizer.py:2-8 | every entity is the profession entity "developer"; there are no more entities than tokens; empty input gives no entities |
| `EntityRecognizer.RecognizeConcat` | nlp_pipeline/entity_recognizer.py:5-7 | recognizing a concatenation is concatenating the recognitions |
| `EntityRecognizer.RecognizeCount` | nlp_pipeline/entity_recognizer.py:4-8 | the number of entities equals the number of tokens whose lower-case form is "developer" |
| `EntityRecognizer.RecognizeIgnoresOtherTokens` | nlp_pipeline/entity_recognizer.py:5-7 | inserting a token that is not "developer" in any letter case leaves the entities unchanged |
| `EntityRecognizer.CaseInsensitive` | nlp_pipeline/entity_recognizer.py:6 | in the token list "Developer", "DEVELOPER", "developers" the first two are recognized and "developers" is not, giving exactly two entities |
| `ResponseGenerator.Generate` | nlp_pipeline/response_generator.py:2-13 | greet, bye, ask_for_help and self_intro each get their own reply, every other intent the fallback, and each of the five replies is produced by exactly its intents |
| `ResponseGenerator.ReplyDeterminedByIntent` | nlp_pipeline/response_generator.py:2-13 | the reply ignores the entities, and equal replies mean equal intents unless both fall through to the fallback |
| `CodeBot.BotReply` | code_bot.py:14-21 | greet, bye and ask_for_help get their fixed replies and every other intent gets "I'm not sure how to respond to that." |
| `CodeBot.IntentOf` | code_bot.py:11-12 | the intent of raw input is one of greet, bye, ask_for_help, unknown |
| `CodeBot.BotReplyVersusGenerator` | code_bot.py:14-21 | the bot's replies equal the response generator's on greet, bye and ask_for_help but differ on unknown |
| `CodeBot.HandleInput` | code_bot.py:10-24 | the reply is the bot's reply to the recognized intent and never empty; the last intent becomes the recognized intent; entity, topic and user ids are unchanged; the history gains exactly `{input, reply}` iff the input is non-empty; the returned reply is the one recorded |
| `CodeBot.HandleInputEntry` | code_bot.py:23 | one input appends exactly its own exchange (none for the empty input) and keeps entity and topic |
| `CodeBot.ConversationRecord` | code_bot.py:10-24 | over a conversation the history grows by one exchange per non-empty input in order, and entity and topic never change |
| `CodeBot.ConversationLastIntent` | code_bot.py:12-23 | after a non-empty conversation the last intent is the one recognized for the last input |
| `CodeBot.FreshUserScenario` | code_bot.py:10-24 | for a user with no file: loading keeps the fresh context, "hi" is greeted and recorded, and after saving a new manager loads back the same context |

## Left out

- Timer threads (`reset_timer`'s cancel-and-restart, context_manager.py:51-56) are concurrency. Only the `timerArmed` flag remains. The two timeout values (600 and 300) and `last_interaction_time` are inert in the model.
- Signal handlers and `sys.exit` (context_manager.py:26-34, 82) are OS process control and are not modelled.
- The `while` loop of `start` and the `input()` calls are not modelled. Only the body for one line is (`ContextManager.Step`).
- The module-level `start` in code_bot.py:26-39 is not modelled. Of the `__main__` block only the construction and `load_context` are modelled (`CodeBot.FreshUserScenario`). The call `bot.context_manager.start(bot)` passes an argument that `ContextManager.start` does not accept.
- nlp_pipeline/nlp_pipeline.py and run_pipeline.py are not part of this model. The former calls `classify`, which the classifier does not define, and is otherwise printing and composition.
- `manual_save` differs from `save_context` only by printing. It is modelled by `ContextManager.Save`, which `ContextManager.Step` calls for "save".
- `CodeBot.__init__` only constructs its collaborators. Its context manager is `ContextManager.New`.
- All `print` and `logging` output is left out.
- JSON text and file I/O are not modelled. A file holds a well-formed context or is corrupt.
- ContextManager.Load: `Corrupt` stands for text that is not valid JSON. A file whose bytes are not valid text in the locale's encoding raises a decoding error that `load_context` does not catch. The model does not cover that case.
- ContextManager.Load: a file that is valid JSON but not a context dictionary is loaded as-is by the source and breaks later calls. The model has no such file state.
- ContextManager.Save: a failing write raises out of `save_context` in the source. The model treats writes as always succeeding.
- ContextManager.Clear: the source clears whatever keys the (possibly loaded) dictionary has. The model's context always has exactly the five keys.
- Text.Strip: `str.lower`, `str.split` and `str.strip` are modelled on ASCII only. Unicode case mapping and non-ASCII whitespace are left out.
- Text.Words: its own contract states only the shape of the result. The split itself (maximal whitespace-free runs, in order) is fixed by `Text.WordsSkipsSpace` and `Text.WordsAfterWord`, and `Text.WordsJoin` builds on them.
- ContextManager.SlotsIsolated: distinct path strings are taken to be distinct files. Case-insensitive file systems (where `Bob` and `bob` share a file) and path aliasing through `..` or symbolic links in a user id are not modelled.
