# Listening2Go, modelled in Dafny

Listening2Go is a single-page web application for language teachers. The
teacher picks a topic, a CEFR level (Common European Framework of Reference
for Languages), optional target grammar and vocabulary, and two voices. The
application then asks a generative text service for a two-speaker dialogue
and a speech service for a multi-speaker recording of it. It shows the
dialogue as chat bubbles and plays the recording in a small player.

This project models the application's own logic and proves properties of it:

- `types.dfy` (module `Types`): the five CEFR levels with their enum strings, the two
  speakers, dialogue lines, and the voice table with the `VoiceName` type drawn from it.
- `gemini_service.dfy` (module `GeminiService`): the level-to-length instruction
  chain, the prompt template with its optional directive lines, the speech script,
  and the guards around the two service calls. The calls themselves are inputs.
- `dialogue_view.dfy` (module `DialogueView`): `formatTime`, the speaker side of
  each bubble, and the audio player as a class (`Player`) driving a second class
  (`AudioElement`) that stands for the browser's audio element.
- `app.dfy` (module `App`): the application state as a class (`AppState`) with
  the dark-mode switch and the two generation handlers.
- `controls.dfy` (module `Controls`): the level-guide table, the short level
  label, the generate button's enablement and the options of the three selects.
- `strings.dfy` (module `Strings`) and `wrappers.dfy` (module `Wrappers`):
  the JavaScript string operations the code relies on (`includes`, `join`,
  `split`, `trim`, number-to-string) and the `Option`/`Outcome` wrappers. An
  `Outcome` is a value that was returned or an error that was thrown.

An external call is represented by the outcome it produced. A guarded call
returns a `ServiceCall`, which records the request sent (`None` when a guard
threw before the call) and what the caller observes.

Two points where the model follows the code's actual behaviour:

- The code only runs `JSON.parse` and an unchecked cast on the service's text,
  so the parsed value is passed through unchanged. No speaker or text check is
  invented.
- App.tsx and Components/DialogueView.tsx never call `URL.revokeObjectURL`, so the model has no release step.

## Model

| member | source | states |
|---|---|---|
| Types.AllLevelsComplete | types.ts:1-7 | there are exactly five levels, each listed once in declaration order, with codes A2, B1, B2, C1, C2 |
| Types.LevelValueShape | types.ts:1-7 | each enum string is its two-letter code, then " - ", then its name |
| Types.LevelValueInjective | types.ts:1-7 | distinct levels have distinct enum strings |
| Types.LevelContainsOnlyItsCode | types.ts:2-6 | a level string contains one of the five codes exactly when that code is its own |
| Types.OtherCodeAbsent | types.ts:2-6 | no level string contains another level's code |
| Types.SpeakerOfLabel | types.ts:10 | a speaker literal is recognised exactly when it is 'Speaker A' or 'Speaker B', and then names that speaker |
| Types.SpeakerLabelRoundTrip | types.ts:10 | each speaker's literal is one of the two, and reading it back gives the speaker |
| Types.VoiceNamesDistinct | types.ts:27-33 | the voice table has five entries with pairwise-distinct names |
| Types.VoiceCaptionsStartWithName | types.ts:28-32 | every voice label begins with its voice name |
| Types.VoiceNamesExactly | types.ts:35 | the voice names are exactly Puck, Charon, Kore, Fenrir and Zephyr |
| Strings.SplitFirstSpec | Components/Controls.tsx:150 | `split(sep)[0]` is a prefix without the separator, no occurrence of the separator starts inside it, and the separator follows it whenever it is shorter than the input: the cut is at the first occurrence |
| Strings.SplitFirstOf | Components/Controls.tsx:150 | the first part of a + sep + b is a when a holds no character starting sep |
| Strings.Trim | Components/Controls.tsx:185 | `trim()` is empty exactly for all-whitespace input, and it is the input without whitespace at either end |
| Strings.DecimalString | Components/DialogueView.tsx:16 | a number's decimal string is non-empty digits with no leading zero |
| Strings.ParseDecimalString | Components/DialogueView.tsx:16 | reading a number's decimal string back gives the number |
| Strings.SplitJoin | services/geminiService.ts:92 | splitting on a character undoes joining with it when no part holds it |
| Strings.JoinSplit | services/geminiService.ts:92 | joining with a character undoes splitting on it |
| GeminiService.LengthInstruction | services/geminiService.ts:29-34 | the instruction is one of the four texts, and it is the 6-to-10 default exactly when none of the five codes occurs in the level string |
| GeminiService.LengthInstructionOfLevel | services/geminiService.ts:29-34 | A2 gets the 4-to-6 instruction, B1 and B2 the 8-to-12, C1 and C2 the 12-to-16, and no level gets the default |
| GeminiService.LengthInstructionFirstMatch | services/geminiService.ts:29-34 | the tests apply in order, and the first match wins |
| GeminiService.DefaultInstructionOnlyOutsideEnum | services/geminiService.ts:33 | the 6-to-10 default comes only from a string that is none of the enum values |
| GeminiService.PromptLines | services/geminiService.ts:46-59 | the template has fourteen lines, and an optional directive line is left blank (just the indentation) exactly when its input is empty |
| GeminiService.Prompt | services/geminiService.ts:44-59 | the prompt text names the topic, the level and the length instruction chosen for that level |
| GeminiService.FixedLinesHaveNoDirective | services/geminiService.ts:46-59 | no fixed template line can begin with a grammar or vocabulary directive |
| GeminiService.PromptDirectiveLines | services/geminiService.ts:51-52 | among the template lines, one begins with the Target Grammar directive iff grammar is non-empty, and one with the Target Vocabulary directive iff vocabulary is non-empty |
| GeminiService.PromptMentions | services/geminiService.ts:46-59 | the joined template contains the topic, the level, the length instruction it is given and each non-empty directive with its value |
| GeminiService.RequestPrompt | services/geminiService.ts:44-59 | the prompt sent for an enum level contains the topic, the level and that level's table instruction, and its template has a directive line exactly per non-empty target |
| GeminiService.ScriptLine | services/geminiService.ts:92 | a script line reads back to its speaker and text |
| GeminiService.ScriptLines | services/geminiService.ts:92 | the script has one `speaker: text` line per dialogue line, in order |
| GeminiService.Script | services/geminiService.ts:92 | the script is empty exactly when the dialogue is |
| GeminiService.ScriptShape | services/geminiService.ts:92 | an empty dialogue gives "", one line gives no separator, and longer ones put a newline between consecutive lines |
| GeminiService.ParseScriptLinesRoundTrip | services/geminiService.ts:92 | reading the script lines back gives the dialogue lines |
| GeminiService.ScriptRoundTrip | services/geminiService.ts:92 | a script whose texts hold no newline reads back to the dialogue it came from |
| GeminiService.TextResult | services/geminiService.ts:72-80 | empty or absent text throws "No content generated"; otherwise the outcome of `JSON.parse` is the result, a parsed value unchanged and a parse error rethrown as it is; an error from the call is rethrown |
| GeminiService.GenerateDialogueText | services/geminiService.ts:36-81 | an empty key throws "API Key is missing" and nothing is sent; otherwise the request for these inputs is sent and the answer is handled as above |
| GeminiService.GenerateDialogueAudio | services/geminiService.ts:83-132 | an empty key throws before sending; otherwise the script and both voices are sent, empty or absent audio data throws "No audio data returned", data is passed through and errors are rethrown |
| DialogueView.FormatTime | Components/DialogueView.tsx:12-17 | every label is at least one digit of minutes, a colon, and two digits of seconds |
| DialogueView.FormatSeconds | Components/DialogueView.tsx:12-17 | on a non-negative reported time, flooring minutes and seconds separately gives the label of the floored input |
| DialogueView.TwoDigits | Components/DialogueView.tsx:16 | the padded seconds field is two digits that read back as the value |
| DialogueView.PaddedSeconds | Components/DialogueView.tsx:16 | below sixty, the zero-padded seconds are exactly two digits |
| DialogueView.ZeroLabel | Components/DialogueView.tsx:13-16 | the "0:00" shortcut agrees with the general formula at zero |
| DialogueView.FormatTimeShape | Components/DialogueView.tsx:12-17 | for every whole number of seconds, the label is the minutes, ":", and the remainder below sixty as exactly two digits |
| DialogueView.FormatTimeRoundTrip | Components/DialogueView.tsx:14-16 | reading a label back as minutes times sixty plus seconds gives the input |
| DialogueView.SpeakerSide | Components/DialogueView.tsx:235-249 | Speaker A's bubbles sit at the start edge and Speaker B's at the end edge, and the badge letter ends the speaker's literal |
| DialogueView.SpeedOptionsShape | Components/DialogueView.tsx:169 | the selectable rates are exactly 0.75, 1, 1.25 and 1.5, increasing, including the normal rate |
| DialogueView.AudioElement.constructor | Components/DialogueView.tsx:125-132 | a newly mounted element has the given source, is paused at time zero, and plays at full volume and normal speed |
| DialogueView.AudioElement.Load | Components/DialogueView.tsx:125-132 | a new source pauses the element, rewinds it to zero and returns it to the default rate 1, keeping its volume |
| DialogueView.AudioElement.Play | Components/DialogueView.tsx:42 | `play()` leaves the element playing when it was already playing or the browser allows it, and reports whether it is playing |
| DialogueView.AudioElement.Pause | Components/DialogueView.tsx:69 | `pause()` leaves the element paused and changes nothing else |
| DialogueView.Player.SliderVolume | Components/DialogueView.tsx:198 | the slider shows 0 while muted and the stored volume otherwise (definition; its partner is MutedIconIffSliderAtZero) |
| DialogueView.Player.ShowsMutedIcon | Components/DialogueView.tsx:187 | the muted icon shows when muted or at volume 0 (definition; its partner is MutedIconIffSliderAtZero) |
| DialogueView.Player.AudibleVolume | Components/DialogueView.tsx:93-102 | the volume the element should play at is in range and is zero exactly when muted |
| DialogueView.Player.MutedIconIffSliderAtZero | Components/DialogueView.tsx:187-198 | the muted icon shows exactly when the volume slider sits at zero |
| DialogueView.Player.constructor | Components/DialogueView.tsx:26-31 | the player starts stopped at time zero, full volume, unmuted, at normal speed, with no element |
| DialogueView.Player.TogglePlay | Components/DialogueView.tsx:66-74 | without an element nothing changes; otherwise isPlaying flips and the element is paused or asked to play |
| DialogueView.Player.TogglePlayTwice | Components/DialogueView.tsx:66-74 | pressing play twice restores isPlaying |
| DialogueView.Player.HandleSeek | Components/DialogueView.tsx:76-82 | with an element, both the element and the state move to the chosen time; without one nothing changes |
| DialogueView.Player.HandleVolumeChange | Components/DialogueView.tsx:84-91 | volume becomes v, the element follows, isMuted becomes v == 0, and the element plays at the audible volume |
| DialogueView.Player.ToggleMute | Components/DialogueView.tsx:93-102 | isMuted flips and the stored volume is kept; unmuting sets the element to the volume, or 0.5 when it is 0, and muting sets it to 0 |
| DialogueView.Player.ToggleMuteTwice | Components/DialogueView.tsx:93-102 | muting twice restores isMuted and the stored volume |
| DialogueView.Player.HandleSpeedChange | Components/DialogueView.tsx:104-109 | playbackRate becomes the chosen offered rate and the element follows |
| DialogueView.Player.OnEnded | Components/DialogueView.tsx:63 | isPlaying becomes false and nothing else changes |
| DialogueView.Player.OnTimeUpdate | Components/DialogueView.tsx:51-53 | the state's time follows the element's |
| DialogueView.Player.OnLoadedMetadata | Components/DialogueView.tsx:55-61 | the state takes the element's duration, and isPlaying ends up saying whether playback started |
| DialogueView.Player.ChangeAudioUrl | Components/DialogueView.tsx:33-48 | a new source restarts from zero at normal speed, the element takes the stored volume, and isPlaying says whether playback started; no source leaves the state alone, and the same source touches neither the state nor the element |
| DialogueView.Player.ChangeAudioUrlKeepingMute | Components/DialogueView.tsx:33-48 | the same reset with the element set to the audible volume, which keeps element and mute state in step; the same source touches nothing |
| DialogueView.MutedResetAsWritten | Components/DialogueView.tsx:40 | muting and then loading new audio leaves the player showing muted while the element plays at full volume |
| DialogueView.MutedResetKeepingMute | Components/DialogueView.tsx:40 | with the corrected reset, the same steps leave the element silent |
| App.ErrorMessage | App.tsx:55 | `message \|\| fallback` is one of the two, and is empty only when both are |
| App.ErrorMessageShown | App.tsx:54-55 | with either fallback text a failure always yields a non-empty message, and a non-empty error message is kept as it is |
| App.AppState.ShowsDialogueView | App.tsx:168 | the dialogue view is rendered exactly when there are lines (definition; its partner is AudioImpliesDialogueView) |
| App.AppState.AudioImpliesDialogueView | App.tsx:168 | audio is only present while the dialogue view is shown |
| App.AppState.constructor | App.tsx:10-22 | the initial state: empty form, level B1, voices Kore and Fenrir, no lines, no audio, no error, not loading |
| App.AppState.ToggleDarkMode | App.tsx:43 | darkMode is negated and nothing else changes |
| App.AppState.ToggleDarkModeTwice | App.tsx:43 | toggling twice restores darkMode |
| App.AppState.BeginDialogueGeneration | App.tsx:46-49 | before the call, text loading is on and error, audio and lines are cleared, which hides the view |
| App.AppState.FinishDialogueGeneration | App.tsx:51-58 | on success the lines are exactly the returned ones; on failure the error is the message or the fallback text; text loading ends either way |
| App.AppState.HandleGenerateDialogue | App.tsx:45-59 | the whole handler: the request is sent only with a key, the lines or the error are set as above, audio is gone and text loading ends |
| App.AppState.FinishAudioGeneration | App.tsx:67-75 | after the synthesis call, a wrapped URL replaces the audio; a failure of the call or of the wrapping keeps the old audio and records the message or the fallback text; audio loading ends and the lines stay |
| App.AppState.HandleGenerateAudio | App.tsx:61-76 | with no lines nothing changes; otherwise the lines are kept, success replaces the audio with audio of these lines, failure keeps the old audio and records the message, and audio loading ends |
| Controls.LevelGuidesTotal | Components/Controls.tsx:22-43 | the guide table has an entry for each of the five levels and nothing else |
| Controls.CurrentGuide | Components/Controls.tsx:61 | the lookup is defined for every level and yields that level's entry of the table |
| Controls.ShortLabel | Components/Controls.tsx:150 | the suggestion label, the level string up to the first " - ", is the bare level code |
| Controls.GenerateDisabled | Components/Controls.tsx:184-185 | the generate button is disabled iff generation is running or the topic is all whitespace |
| Controls.GenerateEnabledByAnyText | Components/Controls.tsx:185 | a topic holding any non-whitespace character enables the button unless generation is running |
| Controls.LevelOptions | Components/Controls.tsx:97-101 | the level select lists each level's string in declaration order, as both value and text |
| Controls.LevelOfValue | Components/Controls.tsx:95 | a selected value maps back only to the level whose string it is |
| Controls.LevelOptionsExactlyOnce | Components/Controls.tsx:95-101 | every level is offered exactly once, and choosing its option selects it |
| Controls.VoiceOptions | Components/Controls.tsx:116-118 | each voice select lists the voice table in order, selecting the name and showing the label |
| Controls.VoiceOptionsExactly | Components/Controls.tsx:132-134 | the voice options select exactly the voice names, each once, and each shown text begins with its name |

## Left out

- The generative service calls (model choice, JSON schema, temperature, speech configuration) are network I/O through a foreign library. Their answers are parameters of the model.
- `JSON.parse` and the cast to dialogue lines are left out. The parsed value is a parameter that is passed through unchanged. No schema check is invented, because the code has none.
- The model's dialogue lines always carry one of the two speakers. The code does not check this for what the service returns.
- Absent and empty response text are both the empty string, because both are falsy. The same holds for audio data that is absent anywhere along its path.
- The API key comes from the build environment. It is a parameter here.
- utils/audioUtils, the WAV wrapper behind `pcmToWavBlobUrl`, is not part of this model. It is a function parameter, and it may throw.
- Dark-mode initialisation and persistence (localStorage, matchMedia, the document class) are browser I/O. Only the toggle is modelled; the initial preference is a constructor parameter.
- The form setters (`setTopic` and the others) are plain assignments and have no methods.
- Browser audio behaviour (autoplay refusal, the reported time and duration, a source change reloading the element) is reduced to parameters and to the small `AudioElement` class.
- DialogueView.AudioElement.Load: keeps the element's duration, while a browser sets it to NaN until the new metadata arrives. NaN is not modelled, and the player takes the duration only from the metadata event.
- Console logging is left out.
- Floating point is left out. Volume, rate and times are reals; `formatTime` is modelled on whole seconds; `FormatSeconds`, whose contract equates it with `FormatTime` of the floored input, covers non-negative real input. The NaN branch of `!seconds` is not modelled.
- The null audio URL is modelled as the empty string in the player (both are falsy there) and as `None` in the application state.
- The optional grammar and vocabulary arguments are modelled as strings, with the empty string for absent. The application always passes strings.
- The default voice arguments of `generateDialogueAudio` are not modelled, because the application always passes both voices.
- The prompt's opening sentence is written as two concatenated literals. The text is the same.
- Each handler is one atomic transition. Overlapping clicks and the asynchronous interleaving of awaits and promise callbacks are left out.
- JSX rendering, CSS classes, icons, Components/Button.tsx (apart from its disabled rule), Components/Logo.tsx and vite.config.ts are presentation or build configuration.
- DialogueView.Player.ChangeAudioUrl: with the empty source, the method keeps `isMuted` and `volume`. In the application that step always comes with an unmount, and the next mount starts unmuted at full volume.
- DialogueView.Player.ChangeAudioUrl: the player is always mounted with no audio. The application clears the audio whenever it clears the lines that mount the view, so a mount with a source is not modelled.

## Findings

| source | as written | input that shows it | evidently intended | confidence | as-written member | corrected member |
|---|---|---|---|---|---|---|
| Components/DialogueView.tsx:40 | the reset effect sets the element's volume to the stored volume even while `isMuted` is true; this is a latent defect of the component, because App.tsx never gives a mounted view a second source (new audio only follows new lines, and clearing the lines unmounts the view) | a parent that keeps the view mounted, mutes the player, then passes a different `audioUrl` | a muted player stays silent on new audio, matching its muted icon and zero slider | low, not executed | DialogueView.MutedResetAsWritten | DialogueView.Player.ChangeAudioUrlKeepingMute |
