# Vision board: a verified model of the goal-planning core

The app lets a user write a goal, attach a picture, and answer a short AI interview.
The interview is typed or spoken. The app then turns the answers into a weekly
schedule with motivations. It saves the result as a "vision item" in Firestore and
registers local reminders for each scheduled time. The plan can also be exported as
a printable HTML page. This project models that core in Dafny:

- `text.dfy` (module `Text`): the string helpers the core relies on. These are
  JavaScript's `trim`, ASCII `toLowerCase`, `includes`, `split(c).pop()`, decimal
  rendering and `padStart(2, "0")`.
- `oracle.dfy` (`Oracle`): the three model calls of `services/ai.ts`. Each turns
  the model's reply, or the exception it threw, into an interview question, a
  schedule proposal or three milestones, with the source's fallbacks. It also
  models the JSON clean-up: the outermost brace span and the removal of code
  fences.
- `add_screen.dfy` (`AddScreen`): the add screen of `app/add.tsx`. It is a class
  whose fields are the screen's state: stage, goal, image, history, current
  question, answer, schedule, motivations, and the saving, exporting and loading
  flags. Its methods are the handlers: start, submit, redo, export and save.
- `hybrid_voice.dfy` (`HybridVoice`): the speech-driven interview hook
  `useHybridVoice`. It is a class over the hook's state, with the transcript, the
  history and the texts spoken. It also holds `getHistoryFromTranscript`, as a
  loop proved against a turn-by-turn definition.
- `notifications.dfy` (`Notifications`): `scheduleRegimen`. This covers the
  `HH:MM` time check, the delay on Android, one weekly calendar trigger per
  active day elsewhere, and the body text.
- `vision_store.dfy` (`VisionStore`): the Firestore-backed store. A written
  document is read back through the snapshot mapping. Toggling a milestone flips
  exactly that milestone.
- `task_completion.dfy` (`TaskCompletion`): the daily completion store and its
  date key.
- `pdf.dfy` (`Pdf`): `generatePlanHTML`, as a tree of elements that is rendered
  to markup.
- `voice_live.dfy` (`VoiceLive`): the Live API session. It covers the connection
  state machine, the messages sent, the callbacks reported, sign-off detection,
  and the conversions between audio bytes and binary strings.
- `cloudinary.dfy` (`Cloudinary`): the unsigned upload. It covers the
  configuration check, the URL, the file name, the MIME type and the error
  messages.
- `settings.dfy` (`Settings`) and `theme.dfy` (`Theme`): the theme and
  notification settings, and how the theme context resolves the colour scheme.

Everything outside the program is a parameter. This includes the model's replies,
JSON parsing, the clock, the platform, permission answers, upload outcomes,
storage reads and Firestore failures. Each operation is therefore a function of
what it observed.

## Model

| member | source | states |
|---|---|---|
| Text.Trim | app/add.tsx:100 | `trim()` returns a slice of its input with only white space outside it, and the slice neither starts nor ends with white space |
| Text.FirstNonSpace | app/add.tsx:100 | the first index from a position on that is not white space; everything skipped is white space |
| Text.EndOfNonSpace | app/add.tsx:100 | the end of a range once trailing white space is dropped; everything dropped is white space |
| Text.TrimEmptyIffAllSpace | app/add.tsx:100 | `trim()` yields the empty string exactly when every character is whitespace, so the submit guard rejects exactly the blank answers |
| Text.TrimIdempotent | app/add.tsx:100 | trimming twice is trimming once |
| Text.AfterLastWithoutSeparator | services/cloudinary.ts:46 | `split(c).pop()` of a string without `c` is the whole string |
| Text.AfterLastAppend | services/cloudinary.ts:46 | the last `c`-separated piece of `x + c + y`, where `y` has no `c`, is `y` |
| Text.Decimal | store/taskCompletionStore.ts:17-20 | a number is rendered as a non-empty run of decimal digits, one digit exactly below 10 |
| Text.DecimalInjective | store/taskCompletionStore.ts:17-20 | distinct numbers render differently |
| Text.Pad2Injective | store/taskCompletionStore.ts:17-20 | two-digit zero padding is injective below 100 |
| Text.TwoDigits | store/taskCompletionStore.ts:17-20 | a padded number from 10 to 99 starts with its non-zero tens digit |
| Text.Pad2 | store/taskCompletionStore.ts:17-20 | `padStart(2, "0")` of a number below 100 is two digits, every character is a digit, and from 10 on it is the plain decimal |
| Text.ToLower | services/voiceLiveApi.ts:159-160 | the model's ASCII reading of `toLowerCase`: it keeps the length and lowers each character on its own, A-Z to a-z, every other character kept (other letters are left out, see "## Left out") |
| Text.Contains | services/voiceLiveApi.ts:159-160 | definition of `includes` (some position where the pattern occurs); no contract of its own, `Text.ContainsWithin` and `Pdf.RawContains` state its properties |
| Text.AfterLast | services/cloudinary.ts:46 | `split(c).pop()` is a suffix of the text without any `c`, and is either the whole text or preceded by a `c` |
| Text.ContainsWithin | services/voiceLiveApi.ts:159-160 | `includes`: text found in a string is found in any string built around it |
| Oracle.TextOr | services/ai.ts:90 | `response.text \|\| dflt`: a non-empty reply is kept, an absent or empty one becomes the default |
| Oracle.IsFinal | app/add.tsx:110 | definition of `next.final` being truthy (also useHybridVoice.ts:114); no contract of its own, `AddScreen.AddScreen.AdvanceInterview` and `HybridVoice.VoiceSession.Respond` state its effect |
| Oracle.HasQuestion | app/add.tsx:100 | definition of `currentQ.question` being truthy; no contract of its own, `AddScreen.CanSubmit` and `HybridVoice.VoiceSession.HandleUserInput` state its effect |
| Oracle.HasBracePair | services/ai.ts:93-94 | definition of "the text matches `/\{[\s\S]*\}/`" (also ai.ts:138-139); no contract of its own, `Oracle.JsonSpan` and `Oracle.CleanJson` state its meaning |
| Oracle.FirstIndex | services/ai.ts:93 | the index of the first occurrence, or none exactly when the character is absent |
| Oracle.LastIndex | services/ai.ts:93 | the index of the last occurrence, or none exactly when the character is absent |
| Oracle.JsonSpan | services/ai.ts:93 | `/\{[\s\S]*\}/`: a span exists exactly when some `{` precedes some `}`; it runs from the first `{` to the last `}` |
| Oracle.RemoveAll | services/ai.ts:36 | `replace(/p/g, "")` never lengthens the text; its partner `RemoveAllAbsent` shows text without the pattern is returned unchanged |
| Oracle.StripFences | services/ai.ts:99 | removing both fence markers and trimming gives text no longer than the input, with no white space at either end |
| Oracle.RemoveAllAbsent | services/ai.ts:36 | removing a pattern the text does not contain changes nothing |
| Oracle.StripFencesRemovesAll | services/ai.ts:36 | after removing the fences and trimming, no triple backtick remains, even where removal joins backticks |
| Oracle.StripFencesKeepsBraces | services/ai.ts:99 | stripping fences from a braced text keeps the outer braces |
| Oracle.TrimKeepsBraced | services/ai.ts:99 | trimming does not touch a text that starts with `{` and ends with `}` |
| Oracle.CleanJson | services/ai.ts:93-99 | the cleaned JSON exists exactly when the text has a brace pair |
| Oracle.GenerateInterviewQuestion | services/ai.ts:67-105 | a thrown call gives the "Failed to think" question; no brace span gives the "confused" question; otherwise the parsed response, or "Failed to think" when parsing fails |
| Oracle.GenerateSchedule | services/ai.ts:107-156 | a thrown call gives the seven-day "Do the thing" plan; no brace span gives the weekday "Work on your goal" plan; otherwise the parse, or the thrown-call plan when parsing fails |
| Oracle.GenerateMilestones | services/ai.ts:12-49 | fences are stripped from the reply (empty when absent) and the result parsed; a throw or a failed parse gives the three fixed milestones |
| Oracle.NoSpanYieldsConfused | services/ai.ts:93-97 | a non-empty reply without `{` always yields the confused question, with text input |
| Oracle.ParsedTextIsBraced | services/ai.ts:93-100 | what reaches `JSON.parse` starts with `{`, ends with `}` and holds no code fence |
| Oracle.EmptyReplyCleansToBraces | services/ai.ts:90-99 | a reply without text, or with empty text, is parsed as `{}` |
| Oracle.EmptyReplyIsNotFallback | services/ai.ts:90-100 | a reply without text or with empty text yields an empty response: not final, no question, and neither fallback question |
| Oracle.ScheduleFallbacks | services/ai.ts:139-155 | both fallback proposals hold one daily 08:00 entry with the motivation "Because you said so"; their tasks and days are those of the source |
| Oracle.MilestoneFallbackMonths | services/ai.ts:40-47 | the fallback milestones are "Month 1" to "Month 3", in order |
| AddScreen.ScheduleId | app/add.tsx:113-116 | an id is `schedule-` followed by the clock reading, a dash and the entry's index |
| AddScreen.ScheduleIdInjective | app/add.tsx:113-116 | the same id comes only from the same clock reading and index |
| AddScreen.CanSubmit | app/add.tsx:100 | an answer may be submitted exactly when it holds a non-space character and the current question has question text |
| AddScreen.HasImage | app/add.tsx:131 | definition of `image` being truthy (picked and not empty); no contract of its own, `AddScreen.AddScreen.SaveVision` states its effect |
| AddScreen.AssignIds | app/add.tsx:113-116 | each proposed entry keeps its kind, time, task and days and receives the id for its position |
| AddScreen.AssignIdsDistinct | app/add.tsx:113-116 | the ids of one proposal are pairwise distinct, whatever the clock reads |
| AddScreen.Questions | app/add.tsx:141-144 | the saved interview lists each history entry's question and answer, in order |
| AddScreen.ItemData | app/add.tsx:138-147 | the item saved holds the goal, the uploaded URL, the interview with summary "AI Generated", the schedule and the motivations |
| AddScreen.RecentItem | app/add.tsx:150-155 | the item handed to the reminders has id `temp-recent`, no milestones and the saved data's text, schedule and motivations |
| AddScreen.AddScreen.constructor | app/add.tsx:34-50 | the screen starts in Setup with every field empty, no flags set and motivations `[]` |
| AddScreen.AddScreen.SetGoalText | app/add.tsx:35 | sets the goal and nothing else |
| AddScreen.AddScreen.SetAnswer | app/add.tsx:41 | sets the answer and nothing else |
| AddScreen.AddScreen.PickImage | app/add.tsx:76-84 | a picked image replaces the current one; a cancelled pick changes nothing |
| AddScreen.AddScreen.StartInterview | app/add.tsx:86-97 | enters the interview stage with the question generated for the goal and an empty history, and clears loading |
| AddScreen.AddScreen.SubmitAnswer | app/add.tsx:99-128 | a blank answer or a missing question changes nothing; otherwise the pair is appended to the history and the answer cleared; a final reply with a schedule adopts it with fresh ids; a final reply without one keeps the screen; any other reply becomes the next question; loading ends false |
| AddScreen.AddScreen.RecordAnswer | app/add.tsx:102-105 | appends (question, answer) to the history, clears the answer and sets loading |
| AddScreen.AddScreen.AdvanceInterview | app/add.tsx:107-122 | asks the model again with the updated history and branches on `isFinal` as `submitAnswer` does |
| AddScreen.AddScreen.AdoptProposal | app/add.tsx:111-119 | a proposal with a schedule replaces the schedule and motivations and moves to the proposal stage; one without a schedule changes nothing |
| AddScreen.AddScreen.HandleRedo | app/add.tsx:175-182 | returns to the interview with the fixed "tell me what was wrong" question and keeps the history |
| AddScreen.AddScreen.HandleExportPdf | app/add.tsx:164-173 | the exported page is the plan page of the goal, motivations and schedule; exporting ends false |
| AddScreen.AddScreen.SaveVision | app/add.tsx:130-162 | without an image (none picked or an empty URI, as `!image` treats both), or while saving, nothing happens; a failed upload ends saving; otherwise the document written is the new-item document; a failed write ends saving without reminders; a successful write registers the reminders of the recent item and navigates back with saving still set |
| HybridVoice.PairsAppend | components/add/useHybridVoice.ts:246-261 | a new turn adds a history pair exactly when it is a user turn after an AI turn |
| HybridVoice.Pairs | components/add/useHybridVoice.ts:246-261 | definition of `getHistoryFromTranscript`; no contract of its own, `PairsExact`, `PairsAppend` and `PairsBound` state what it returns |
| HybridVoice.PairsAtIndices | components/add/useHybridVoice.ts:251-258 | every history pair is an AI turn and the user turn right after it |
| HybridVoice.PairIndicesIncreasing | components/add/useHybridVoice.ts:251-258 | the pairs appear in transcript order |
| HybridVoice.PairIndicesComplete | components/add/useHybridVoice.ts:251-258 | each AI turn followed by a user turn gives exactly one pair |
| HybridVoice.PairsExact | components/add/useHybridVoice.ts:246-261 | the history is exactly the AI-then-user adjacent pairs of the transcript, in order, none missed |
| HybridVoice.PairsBound | components/add/useHybridVoice.ts:246-261 | a history has at most half as many entries as its transcript has turns |
| HybridVoice.HistoryFromTranscript | components/add/useHybridVoice.ts:246-261 | the loop builds exactly the turn-by-turn history of the transcript |
| HybridVoice.UnansweredTurnIsLost | components/add/useHybridVoice.ts:114-124 | when the model returns no question, the next user turn has no AI turn before it and is missing from the transcript's history |
| HybridVoice.VoiceSession.constructor | components/add/useHybridVoice.ts:38-46 | the hook starts idle, with empty transcript and history |
| HybridVoice.VoiceSession.Speak | components/add/useHybridVoice.ts:134-147 | the text is spoken and the speaking flag set; nothing else changes |
| HybridVoice.VoiceSession.StopSpeaking | components/add/useHybridVoice.ts:149-152 | clears the speaking flag and nothing else |
| HybridVoice.VoiceSession.Init | components/add/useHybridVoice.ts:201-225 | a first question with text becomes the current question, joins the transcript as an AI turn and is spoken; processing ends false; transcript sync is kept |
| HybridVoice.VoiceSession.OnRecognitionStart | components/add/useHybridVoice.ts:49-52 | listening starts with an empty recognised text |
| HybridVoice.VoiceSession.OnRecognitionResult | components/add/useHybridVoice.ts:62-72 | the last non-empty result becomes the recognised text |
| HybridVoice.VoiceSession.OnRecognitionError | components/add/useHybridVoice.ts:74-92 | listening stops; "no-speech", "aborted" and "client" leave the error as it was, any other code sets the error with the code |
| HybridVoice.IsBenignError | components/add/useHybridVoice.ts:78-88 | the codes "no-speech", "aborted" and "client"; no contract of its own, `OnRecognitionError` states their effect |
| HybridVoice.Askable | components/add/useHybridVoice.ts:101 | `currentQuestion?.question` is truthy; no contract of its own, `HandleUserInput` and `OnRecognitionEnd` state its effect |
| HybridVoice.VoiceSession.HandleUserInput | components/add/useHybridVoice.ts:100-131 | empty input or no question does nothing; otherwise the pair joins the history and the user turn the transcript; a final reply completes the interview and speaks the closing line; a reply with a question becomes the current question and is spoken; the history stays the transcript's history whenever the model replied with a question or finished |
| HybridVoice.VoiceSession.RecordUserTurn | components/add/useHybridVoice.ts:103-108 | appends the pair to the history and the user turn to the transcript, and keeps them in sync |
| HybridVoice.VoiceSession.Respond | components/add/useHybridVoice.ts:110-130 | branches on the model's reply as above, then clears processing (the `finally`); an AI turn never changes the transcript's history, and after a question or the closing line the session is back in step (history, current question and last AI turn agree) |
| HybridVoice.VoiceSession.OnRecognitionEnd | components/add/useHybridVoice.ts:54-60 | listening stops; with blank recognised text, or without a question to answer, nothing else changes; otherwise the trimmed text is handled as the answer, exactly as `HandleUserInput` states: the pair joins the history, processing ends, and the reply completes the interview, asks the next question, or leaves only the user turn in the transcript |
| HybridVoice.VoiceSession.StartListening | components/add/useHybridVoice.ts:155-177 | speech stops; a denied permission or a failed start sets the fixed error message |
| HybridVoice.VoiceSession.StopListening | components/add/useHybridVoice.ts:179-186 | clears listening and nothing else |
| HybridVoice.VoiceSession.Reset | components/add/useHybridVoice.ts:189-198 | clears the transcript, the history, the question, the error, completion and the recognised text |
| Notifications.DigitsValue | services/notifications.ts:52-53 | `parseInt` of one digit is below 10 and of two digits below 100 |
| Notifications.ParseTime | services/notifications.ts:46-56 | a time is accepted exactly when it is one or two digits, a colon and two digits, with hour below 24 and minute below 60 |
| Notifications.ParseFormattedTime | services/notifications.ts:46-56 | every zero-padded `HH:MM` with a valid hour and minute parses back to that hour and minute |
| Notifications.ParseShortHour | services/notifications.ts:46-56 | a one-digit hour such as `8:05` is accepted |
| Notifications.Pad2Value | services/notifications.ts:52-53 | the digits of a padded number read back as that number |
| Notifications.DecimalValue | store/taskCompletionStore.ts:17-20 | `String(n)` reads back as `n` under `parseInt(·, 10)`, so the year part of a day key is the year itself |
| Notifications.RejectedTimes | services/notifications.ts:46-56 | `25:99`, `noon`, `08:5`, the empty time, `24:00` and `8:60` are skipped |
| Notifications.MatchesTimeFormat | services/notifications.ts:46 | definition of the regex `^(\d{1,2}):(\d{2})$`; no contract of its own, `ParseTime` and `ParsedTimeIsFormatted` state which texts it accepts |
| Notifications.HourPart | services/notifications.ts:46-52 | in the `^(\d{1,2}):(\d{2})$` shape the hour group is the one or two digits before the colon |
| Notifications.MinutePart | services/notifications.ts:46-53 | in that shape the minute group is exactly two digits |
| Notifications.OneDigitReadsBack | services/notifications.ts:46-52 | a one-digit hour group prints back as itself |
| Notifications.TwoDigitsReadBack | services/notifications.ts:46-53 | a two-digit group prints back, zero-padded, as itself |
| Notifications.ParsedTimeIsFormatted | services/notifications.ts:46-56 | conversely to `ParseFormattedTime` and `ParseShortHour`, every accepted time is `HH:mm` or `H:mm` of the hour and minute it parses to |
| Notifications.Body | services/notifications.ts:79 | the body is the entry's task text, a dash and the first motivation, or the default reason when there is none |
| Notifications.DelayMs | services/notifications.ts:65-74 | the delay is positive, at most a day, and lands on the target time of day |
| Notifications.DelaySeconds | services/notifications.ts:82-86 | the delay in whole seconds, rounded down, at most 86400 |
| Notifications.DelayUnderASecond | services/notifications.ts:65-86 | a target less than a second ahead gets a zero delay, a target exactly at the present moment gets a full day (86400 s), and one thirty seconds past gets 86370 s |
| Notifications.EntryRegistrations | services/notifications.ts:38-105 | an unparsable time gives nothing; on Android one non-repeating delay; elsewhere one per active day; every registration has the title, the body and the item id |
| Notifications.AllRegistrations | services/notifications.ts:38-105 | no entries register nothing; on Android there is at most one registration per entry; every registration carries the reminder title and the item's id |
| Notifications.DelayRegistration | services/notifications.ts:82-86 | the Android trigger waits the computed seconds and does not repeat |
| Notifications.WeeklyRegistration | services/notifications.ts:100 | a weekly trigger fires on weekday `day + 1` at the parsed time |
| Notifications.WeeklyTriggers | services/notifications.ts:88-105 | on the calendar path the k-th registration fires weekly on the k-th active day plus one |
| Notifications.AllRegistrationsAppend | services/notifications.ts:38-59 | the registrations of consecutive entries are concatenated |
| Notifications.SkippedEntryIsTransparent | services/notifications.ts:56 | a skipped entry contributes nothing and does not stop the entries after it |
| Notifications.DelayPathCount | services/notifications.ts:62-87 | on Android there is exactly one registration per entry with a valid time |
| Notifications.Regimen | services/notifications.ts:22-36 | no schedule, reminders off or permission refused registers nothing |
| Notifications.RegisterEntry | services/notifications.ts:38-105 | one pass of the loop registers exactly the entry's registrations: none when its time is skipped, one delay on Android, one weekly trigger per active day elsewhere |
| Notifications.ScheduleRegimen | services/notifications.ts:17-105 | permission is asked exactly when there is a schedule and reminders are on; the loop registers exactly the regimen, in order |
| VisionStore.UserIdOf | store/visionStore.ts:114-119 | the user id is the signed-in uid when truthy, otherwise a non-empty placeholder (`anonymous`) |
| VisionStore.NewDocument | store/visionStore.ts:110-119 | the document written carries the item's fields, the user id, no milestones and a server timestamp |
| VisionStore.ItemFromDoc | store/visionStore.ts:84-91 | a snapshot document becomes an item whose id is the stored `id` field when present and the document id otherwise, whose text, image URI, milestones, user id, interview data, schedule and motivations are the document's, and whose creation time is the timestamp's milliseconds when non-zero, else "now" |
| VisionStore.WrittenDocReadsBack | store/visionStore.ts:84-119 | a freshly written document reads back as the item added (text, image URI, interview data, schedule, motivations), with its document id, the writer's user id, no milestones and "now" as creation time |
| VisionStore.ItemsFromSnapshot | store/visionStore.ts:84-91 | one item per document, in order |
| VisionStore.FindItem | store/visionStore.ts:149-150 | the first item with the id, or none exactly when no item has it |
| VisionStore.ToggleMilestones | store/visionStore.ts:152-154 | exactly the milestones with the id flip their completion; nothing else changes |
| VisionStore.ToggleTwiceRestores | store/visionStore.ts:147-162 | toggling the same milestone twice restores the list |
| VisionStore.ToggleUnknownIsIdentity | store/visionStore.ts:152-154 | toggling an id no milestone has changes nothing |
| VisionStore.Store.constructor | store/visionStore.ts:65-69 | the store starts empty, idle and without error |
| VisionStore.Store.Subscribe | store/visionStore.ts:71-80 | subscribing sets loading |
| VisionStore.Store.OnSnapshot | store/visionStore.ts:84-91 | a snapshot replaces the items with the mapped documents, ends loading and clears the error |
| VisionStore.Store.OnSnapshotError | store/visionStore.ts:93-96 | a listener error records the message and ends loading, keeping the items |
| VisionStore.Store.Refresh | store/visionStore.ts:102-108 | refreshing ends with the refreshing flag cleared and nothing else changed |
| VisionStore.Store.AddItem | store/visionStore.ts:110-125 | writes the new-item document; a failure is recorded and re-thrown; items come only from snapshots |
| VisionStore.Store.UpdateItem | store/visionStore.ts:127-135 | a failure is recorded as the error; nothing else changes |
| VisionStore.Store.DeleteItem | store/visionStore.ts:137-145 | a failure is recorded as the error; nothing else changes |
| VisionStore.Store.ToggleMilestone | store/visionStore.ts:147-162 | an unknown item writes nothing; otherwise the toggled milestones of the first matching item are written and a failure is recorded |
| TaskCompletion.TodayKey | store/taskCompletionStore.ts:17-20 | the key is year, zero-padded month and day, joined by dashes: digits everywhere except the two dashes |
| TaskCompletion.TodayKeyInjective | store/taskCompletionStore.ts:17-20 | different days have different keys |
| TaskCompletion.StorageKey | store/taskCompletionStore.ts:22 | the storage key is the fixed prefix followed by the day's key |
| TaskCompletion.Toggled | store/taskCompletionStore.ts:44-48 | the flag of that task id becomes the negation of its recorded value, absent counting as false; every other task is unchanged |
| TaskCompletion.ToggleAbsentTwice | store/taskCompletionStore.ts:44-48 | a task never toggled becomes done, and toggling twice leaves it recorded as false |
| TaskCompletion.ToggleRecordedTwice | store/taskCompletionStore.ts:44-48 | toggling a recorded task twice restores the map |
| TaskCompletion.CompletionStore.constructor | store/taskCompletionStore.ts:25-26 | the store starts with no completions and not loading |
| TaskCompletion.CompletionStore.Load | store/taskCompletionStore.ts:28-41 | stored text replaces the completions with its parse; nothing stored gives an empty map; a read or parse failure keeps the map; loading ends |
| TaskCompletion.CompletionStore.Toggle | store/taskCompletionStore.ts:43-58 | the completions become the toggled map, and that map is what is written |
| Settings.ToggledMode | store/settingsStore.ts:28-36 | dark becomes light and anything else becomes dark, never system |
| Settings.ToggleTwice | store/settingsStore.ts:28-36 | toggling twice restores light or dark; from system it ends on light |
| Settings.SettingsStore.constructor | store/settingsStore.ts:21-22 | the defaults are system theme and reminders on |
| Settings.SettingsStore.SetThemeMode | store/settingsStore.ts:24-26 | sets the mode and nothing else |
| Settings.SettingsStore.ToggleDarkMode | store/settingsStore.ts:28-36 | the mode becomes the toggled mode |
| Settings.SettingsStore.SetNotificationsEnabled | store/settingsStore.ts:38-48 | sets the flag; every scheduled reminder is cancelled exactly when reminders are switched off |
| Theme.Resolve | context/ThemeContext.tsx:23-37 | system mode follows the device scheme, light when unknown; explicit modes ignore it; `isDark` holds exactly for the dark scheme; `isUsingSystemTheme` holds exactly in system mode |
| Theme.SchemeOf | context/ThemeContext.tsx:28-30 | definition of the scheme an explicit mode picks; no contract of its own, `Theme.Resolve` and `Theme.ExplicitModeIgnoresSystem` state its effect |
| Theme.DefaultIsSystemWithoutScheme | context/ThemeContext.tsx:13-17 | the context default equals what system mode resolves to without a device scheme |
| Theme.ExplicitModeIgnoresSystem | context/ThemeContext.tsx:26-30 | in light or dark mode the device scheme makes no difference |
| Theme.ToggleDarkModeAppearance | context/ThemeContext.tsx:26-35 | after toggling the appearance is dark exactly when the mode was not dark, and the system theme is no longer used; from system mode on a dark device, toggling stays dark |
| Pdf.CountAllAppend | services/pdfGenerator.ts:15-215 | counting elements of a class is additive over siblings |
| Pdf.CountAllUniform | services/pdfGenerator.ts:15-215 | siblings with `c` matches each give `c` times their number |
| Pdf.DaySpan | services/pdfGenerator.ts:179-181 | a day initial is marked active exactly when its index is an active day |
| Pdf.DaysRow | services/pdfGenerator.ts:179-181 | the day row holds the seven day initials in order |
| Pdf.ThirtyCircles | services/pdfGenerator.ts:188-207 | whatever the plan, the tracker holds 30 circles in 5 weeks |
| Pdf.MotivationItems | services/pdfGenerator.ts:154-166 | there is one list item per motivation, and none without motivations |
| Pdf.ScheduleCards | services/pdfGenerator.ts:168-186 | there is one card per schedule entry |
| Pdf.SectionBlocks | services/pdfGenerator.ts:154-186 | the page has a section block for motivations exactly when there are any and one for the schedule exactly when it is non-empty, and no other |
| Pdf.CountAllSplit | services/pdfGenerator.ts:179-181 | siblings that each match exactly one of two classes split their number between them |
| Pdf.CardDaySpans | services/pdfGenerator.ts:174-181 | every card shows seven day initials, each either active or inactive |
| Pdf.RenderAllContains | services/pdfGenerator.ts:15-215 | text in a child's markup is in its siblings' joined markup |
| Pdf.RenderChildContains | services/pdfGenerator.ts:15-215 | text in a child's markup is in its parent's markup |
| Pdf.RawContains | services/pdfGenerator.ts:149 | raw text is rendered as it is |
| Pdf.GoalVerbatim | services/pdfGenerator.ts:148-152 | the goal appears in the page verbatim, without escaping |
| Pdf.TaskVerbatim | services/pdfGenerator.ts:174-177 | each schedule entry's task appears in the page verbatim |
| Pdf.CardInPage | services/pdfGenerator.ts:168-186 | whatever a schedule entry's card shows, the page shows, with or without a motivation section before it |
| Pdf.TimeVerbatim | services/pdfGenerator.ts:174 | each schedule entry's time appears in the page verbatim |
| Pdf.CadenceVerbatim | services/pdfGenerator.ts:175 | each schedule entry's cadence (daily, weekly, custom) appears in the page |
| Pdf.MotivationVerbatim | services/pdfGenerator.ts:154-166 | when there are motivations, each of them appears in the page verbatim |
| Pdf.RenderAllAppend | services/pdfGenerator.ts:158-163 | joining the markup of a run of siblings (`.join("")`) is additive over the run |
| Pdf.Render | services/pdfGenerator.ts:146-215 | definition of the serialiser of the template's markup; no contract of its own, `RenderChildContains` and `RawContains` state what reaches the page |
| Pdf.RenderAll | services/pdfGenerator.ts:158-163 | definition of `.join("")` over siblings; no contract of its own, `RenderAllAppend` and `RenderAllContains` state its properties |
| Pdf.PlanDocument | services/pdfGenerator.ts:146-213 | definition of the page tree of `generatePlanHTML`; no contract of its own, the count lemmas (`ThirtyCircles`, `MotivationItems`, `ScheduleCards`, `SectionBlocks`) state its structure |
| Pdf.PlanHtml | services/pdfGenerator.ts:146-215 | definition of `generatePlanHTML` as text; no contract of its own, the `Verbatim` lemmas state what it contains |
| Pdf.ScheduleCard | services/pdfGenerator.ts:172-183 | definition of one schedule card; no contract of its own, `CardCount`, `CardDaySpans`, `TaskVerbatim`, `TimeVerbatim` and `CadenceVerbatim` state its properties |
| Pdf.MotivationSection | services/pdfGenerator.ts:154-166 | definition of the motivation section; no contract of its own, `MotivationSectionCount` and `MotivationVerbatim` state its properties |
| Pdf.Tracker | services/pdfGenerator.ts:188-207 | definition of the 30-day tracker; no contract of its own, `TrackerCount` and `ThirtyCircles` state its shape |
| Pdf.Header | services/pdfGenerator.ts:148-152 | definition of the header block; no contract of its own, `HeaderCount` and `GoalVerbatim` state its properties |
| Pdf.MotivationItem | services/pdfGenerator.ts:158-163 | definition of one motivation list item; no contract of its own, `MotivationSectionCount` and `MotivationVerbatim` state its properties |
| Pdf.ScheduleSection | services/pdfGenerator.ts:168-186 | definition of the schedule section; no contract of its own, `ScheduleSectionCount` and `CardInPage` state its properties |
| Pdf.TrackerWeek | services/pdfGenerator.ts:192-205 | definition of one tracker week; no contract of its own, `TrackerWeekCount` states its properties |
| Pdf.Sections | services/pdfGenerator.ts:147-211 | definition of the container's blocks in order; no contract of its own, `SectionsCount` and `SectionBlocks` state its properties |
| Pdf.CadenceName | services/pdfGenerator.ts:175 | definition of the printed `type`; no contract of its own, `CadenceVerbatim` states that it reaches the page |
| Pdf.HeaderCount | services/pdfGenerator.ts:148-152 | the header holds no element of any class but its own three |
| Pdf.FooterCount | services/pdfGenerator.ts:209-211 | the footer holds no element of any class but its own |
| Pdf.MotivationSectionCount | services/pdfGenerator.ts:154-166 | the motivation section is one section block holding one list item per motivation |
| Pdf.DaysRowCount | services/pdfGenerator.ts:178-182 | the day row holds only its own and the day classes |
| Pdf.CardCount | services/pdfGenerator.ts:172-183 | a schedule card is one card and holds no other card or section |
| Pdf.ScheduleSectionCount | services/pdfGenerator.ts:168-186 | the schedule section is one section block holding one card per entry |
| Pdf.TrackerWeekCount | services/pdfGenerator.ts:193-205 | a tracker week is one week holding the given number of circles |
| Pdf.TrackerCount | services/pdfGenerator.ts:188-207 | the tracker holds five weeks and 30 circles and no other counted class |
| Pdf.DocumentCount | services/pdfGenerator.ts:146-213 | below the html, body and container wrappers the document is its sections |
| Pdf.SectionsCount | services/pdfGenerator.ts:147-212 | the container holds the header, the motivation section when there are motivations, the schedule section when there is a schedule, the tracker and the footer, in order |
| Pdf.BodyCount | services/pdfGenerator.ts:154-207 | for a class the header and footer do not use, the page's count sums the sections present and the tracker |
| Pdf.OnlyInTracker | services/pdfGenerator.ts:188-207 | tracker weeks and circles occur nowhere but in the tracker |
| VoiceLive.ToLowerAppend | services/voiceLiveApi.ts:159-160 | lower-casing distributes over concatenation |
| VoiceLive.LowerPlanPhrase | services/voiceLiveApi.ts:160 | the sign-off sentence lower-cases to the phrase searched for |
| VoiceLive.SignOffDetected | services/voiceLiveApi.ts:159-164 | any text containing the sign-off sentence the instruction asks for is recognised as completion |
| VoiceLive.NoSignOffWithoutLetters | services/voiceLiveApi.ts:159-160 | a text without the letters p or g is never taken as completion |
| VoiceLive.IsCompletionPhrase | services/voiceLiveApi.ts:159-160 | definition of the two lower-cased `includes` tests; no contract of its own, `SignOffDetected` and `NoSignOffWithoutLetters` state what it accepts |
| VoiceLive.OnePartReportsShape | services/voiceLiveApi.ts:153-171 | a part with text is reported as an AI transcript first; a part without text reports no transcript; completion is scheduled exactly when its text holds a sign-off phrase |
| VoiceLive.OnePartReports | services/voiceLiveApi.ts:153-171 | definition of one iteration of the loop over a turn's parts; no contract of its own, `OnePartReportsShape` and `CompletionIffSignOff` state its properties |
| VoiceLive.PartReportsAppend | services/voiceLiveApi.ts:153-171 | the reports of consecutive parts are concatenated |
| VoiceLive.CompletionIffSignOff | services/voiceLiveApi.ts:153-165 | a model turn schedules completion exactly when one of its parts holds a sign-off phrase |
| VoiceLive.PartReports | services/voiceLiveApi.ts:150-171 | a turn without parts reports nothing; `PartReportsAppend` makes the reports of a run of parts the reports of each part in order |
| VoiceLive.MessageReportsShape | services/voiceLiveApi.ts:136-189 | a setup message or one without content reports nothing; otherwise completion is scheduled exactly when one of the texts signs off, and the user's transcription, if any, is reported last |
| VoiceLive.MessageReports | services/voiceLiveApi.ts:147-178 | definition of the reports a message yields; no contract of its own, `MessageReportsShape` states them |
| VoiceLive.LastReportedStateSkips | services/voiceLiveApi.ts:41-44 | reports without a state change leave the last reported state as it was |
| VoiceLive.NoStateInMessageReports | services/voiceLiveApi.ts:136-189 | handling a server message never reports a state change |
| VoiceLive.NoStateInPartReports | services/voiceLiveApi.ts:150-171 | model parts never report a state change |
| VoiceLive.Session.constructor | services/voiceLiveApi.ts:38-39 | a session starts disconnected, without a socket |
| VoiceLive.Session.UpdateState | services/voiceLiveApi.ts:41-44 | sets the state and reports it; the last reported state is the state |
| VoiceLive.Session.Connect | services/voiceLiveApi.ts:71-134 | reports connecting; a socket that cannot be created reports failed and the error |
| VoiceLive.Session.OnOpen | services/voiceLiveApi.ts:78-104 | on open the session is connected, and the setup message is sent exactly when a socket is still held (`ws?.send`) |
| VoiceLive.Session.OnError | services/voiceLiveApi.ts:115-120 | a socket error reports failed and the connection error |
| VoiceLive.Session.OnClose | services/voiceLiveApi.ts:122-126 | closing drops the socket and reports disconnected |
| VoiceLive.Session.Disconnect | services/voiceLiveApi.ts:191-197 | closes the socket if there was one and reports disconnected |
| VoiceLive.Session.SendAudio | services/voiceLiveApi.ts:199-215 | an audio chunk is sent exactly when a socket is held and the state is connected |
| VoiceLive.Session.SendText | services/voiceLiveApi.ts:217-234 | a text turn is sent exactly when a socket is held and the state is connected |
| VoiceLive.Session.ReportPart | services/voiceLiveApi.ts:153-171 | reports what one model part reports |
| VoiceLive.Session.ReportParts | services/voiceLiveApi.ts:153-171 | the loop reports what the model turn's parts report, in order |
| VoiceLive.Session.HandleServerMessage | services/voiceLiveApi.ts:136-189 | setup completion sends the greeting when a socket is held and the state is connected; other messages report their parts and then the user transcription; the state never changes |
| VoiceLive.BinaryString | services/voiceLiveApi.ts:250-257 | each byte becomes the character with that code |
| VoiceLive.BytesOf | services/voiceLiveApi.ts:262-269 | each character becomes its code modulo 256 |
| VoiceLive.BytesRoundTrip | services/voiceLiveApi.ts:250-269 | bytes turned into a binary string and back are unchanged |
| VoiceLive.BinaryRoundTrip | services/voiceLiveApi.ts:250-269 | a binary string turned into bytes and back is unchanged |
| VoiceLive.AudioBufferToBase64 | services/voiceLiveApi.ts:250-257 | the loop builds the binary string of the bytes and encodes it |
| VoiceLive.Base64ToAudioBuffer | services/voiceLiveApi.ts:262-269 | the loop fills a fresh buffer with the bytes of the decoded string |
| Cloudinary.IsConfigured | services/cloudinary.ts:94-96 | configured exactly when both the cloud name and the preset are non-empty |
| Cloudinary.Truthy | services/cloudinary.ts:95 | definition of a configuration value or message being truthy (present and not empty, also cloudinary.ts:34); no contract of its own, `Cloudinary.IsConfigured` and `Cloudinary.Upload` state its effect |
| Cloudinary.UploadUrl | services/cloudinary.ts:40 | the URL is the API prefix, the cloud name and the upload path |
| Cloudinary.UploadUrlInjective | services/cloudinary.ts:40 | different cloud names give different URLs |
| Cloudinary.FileName | services/cloudinary.ts:46 | the file name is the part after the last slash, or `image.jpg` when that is empty; it has no slash |
| Cloudinary.Extension | services/cloudinary.ts:49 | the extension is the lower-cased part after the last dot, the whole name when there is none |
| Cloudinary.MimeType | services/cloudinary.ts:50-53 | png, gif and webp map to their image types; everything else is JPEG |
| Cloudinary.MimeTypeIsImage | services/cloudinary.ts:46-53 | every upload is sent with an image MIME type |
| Cloudinary.FileNameOfPath | services/cloudinary.ts:46 | a path's file name is its last component |
| Cloudinary.ExtensionAfterDot | services/cloudinary.ts:49 | the extension of `stem.ext` is `ext` lower-cased |
| Cloudinary.UpperCaseExtension | services/cloudinary.ts:46-53 | a `.PNG` file is uploaded as `image/png` |
| Cloudinary.Request | services/cloudinary.ts:34-63 | a request is built exactly when configured, with the upload URL, the preset, the file name and the MIME type |
| Cloudinary.Upload | services/cloudinary.ts:33-89 | missing credentials fail with the fixed message; a successful response gives the secure URL; a refused response or a thrown fetch fails with the prefixed message |
| Cloudinary.UploadErrorPrefix | services/cloudinary.ts:76-88 | every failure after the credential check carries the "Cloudinary upload failed: " prefix |

## Left out

- The clock. `Date.now()`, today's date and the time of day are parameters. The model reads the time of day once per `scheduleRegimen` call, as milliseconds since midnight; the source calls `new Date()` again for each Android entry inside its loop, so entries registered across a change of second may differ from the model by that much. Daylight-saving changes and time zones are not modelled.
- `toLocaleDateString`. The export date is a parameter of the PDF page.
- Case conversion covers ASCII letters only. JavaScript's `toLowerCase` also maps other letters.
- External services are parameters or outcomes: the Gemini calls and JSON parsing, `fetch`/`FormData`, Firestore, AsyncStorage, `expo-notifications`, speech recognition and synthesis, and the WebSocket.
- `btoa` and `atob` are parameters. Only the byte and string conversions around them are modelled.
- The PDF's CSS and whitespace are not modelled, and neither are the printing and sharing in `generatePlanPDF`. The page is modelled as a tree of tags, classes and text.
- `setTimeout` delays are not modelled. This covers the 2-second completion callback, the pause before listening, and the delays before the first question. Each handler runs at once and atomically.
- React's stale closures and the ordering of asynchronous state updates are not modelled.
- `useLiveVoice` and the stage components are left out. They only wire the modelled operations to the screen.
- Schedule times that are not strings are not modelled. Every time is a string.
- Parsed replies are assumed to have their declared field types: `question` a string, `final` a boolean, every schedule entry's `activeDays` an array of numbers and its `type` one of daily, weekly and custom. The source uses `JSON.parse`'s output unchecked, so a truthy non-boolean `final` also ends the interview, an unknown `type` is printed in the PDF as it is, and an entry without `activeDays` makes the weekly-trigger loop of `scheduleRegimen` and the PDF's day row throw; in `saveVision` that throw comes after `addItem` has written the document, so saving ends and a retry writes a second document. None of these paths is modelled.
- Failures of `scheduleNotificationAsync` are not modelled. Registration always succeeds.
- The catch branches of `startInterview` (`app/add.tsx`) and of `handleUserInput` and `initInterview` (`useHybridVoice.ts`) are not modelled: `generateInterviewQuestion` catches every error itself and the rest of those try blocks only sets state, so they cannot run. The catch of `submitAnswer` (app/add.tsx:123-125) is modelled: a schedule proposal without `schedule` makes `result.schedule.map` throw, which is the `proposal.schedule.None?` branch of `AdoptProposal`.
- Persistence of the settings store is not modelled. The persist middleware only saves and restores the two fields.
- TaskCompletion.CompletionStore.Toggle: a failed save is only logged, so the save outcome has no effect on the state.
- The `VOICE_INTERVIEW` stage is not modelled. `app/add.tsx` never enters it.
- `generateMilestones` is modelled as the function `Oracle.GenerateMilestones`. No screen in the core calls it.
- HybridVoice.VoiceSession.HandleUserInput: its ensures keeps the history equal to the transcript's history only when the model returns a question or finishes. When it returns neither, the user turn is recorded with no AI turn before it (see HybridVoice.UnansweredTurnIsLost).
