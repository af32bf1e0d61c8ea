# jg-yuyin: a Dafny model of the narration core

jg-yuyin is a text-to-speech plug-in for the SillyTavern chat front end. It configures the
SiliconFlow speech API and watches the chat. When a message is rendered, it picks the text
between two configured markers (or the whole message), sends it to the speech API and plays the
audio. This project models the plug-in's decision logic and proves properties of that logic:

- `utils.dfy` (`Utils`) models `escapeRegex`, `extractSpeakText` and `debounce`.
  - `ScanSymmetric` and `ScanAsymmetric` are the two scanning loops of `extractSpeakText`. Each
    is proved equal to a recursive specification function.
  - The asymmetric branch's regular expression `start(.*?)end`, built with the `g` flag, is
    modelled as a literal search. `LazyEnd` is its lazy group: the first occurrence of the end
    marker that can be reached without crossing a line terminator, since `.` does not match one.
  - `Debouncer` is the closure state of `debounce`: one pending argument, replaced by every call.
- `settings.dfy` (`Settings`) models the settings store kept in `localStorage`. `Store` is a
  class whose fields are:
  - the stored value;
  - the registered change callbacks;
  - the deliveries made so far;
  - the callback failures that were caught.
- `tts.dfy` (`Tts`) models `generateTTS`, `stopCurrentAudio`, `loadCustomVoices` and
  `uploadVoice`.
  - `PlanTTS` is the guard chain and the request body.
  - `AudioState` is the shared `audioState` object.
- `listener.dfy` (`Listener`) models the message listener as a state machine. Timers are events:
  a handler arms one, and a later method call fires it. `Listener` is a class whose methods are
  proved against the transition functions.
- `ui.dfy` (`Ui`) models these parts of the settings panel:
  - the voice drop-down (`updateVoiceOptions`);
  - the list of custom voices;
  - the checkbox coercions of `renderFromSettings`;
  - the once-only injection guard.
- `json.dfy`, `strings.dfy` and `wrappers.dfy` are shared helpers:
  - JavaScript values, truthiness and `||`;
  - template-string rendering;
  - `String.prototype.trim` whitespace;
  - `join`;
  - `Option`.

Everything outside the page is a parameter. That covers the HTTP replies, the DOM lookups,
`localStorage` write failures, whether a callback throws, and `FileReader`. Each is a boolean or
a value that the caller passes in.

Two behaviours of the code are worth noting:
- `audioState.isPlaying` is set only after the speech request has succeeded, and only when the
  audio is auto-played (`tts.js:150-154`). A second request made while the first is still in
  flight is not refused.
- Listener registration in `setupMessageListener` is not wrapped in a `try`
  (`listener.js:279-288`). A throwing `eventSource.on` would leave `initialized` unset; that
  exception is not modelled (see "## Left out").

## Model

| member | source | states |
|---|---|---|
| Utils.EscapeRegex | utils.js:11-13 | The escaped text is at least as long as the input and at most twice as long. |
| Utils.EscapeRegexRoundTrip | utils.js:11-13 | Removing the backslashes that escaping added gives back the original string, so no character is lost or reordered. |
| Utils.EscapeRegexPlain | utils.js:11-13 | A string without any of the characters `.*+?^${}()\|[]\` is left unchanged. |
| Utils.EscapeRegexAppend | utils.js:12 | Escaping works character by character: escaping a concatenation equals concatenating the escaped parts. |
| Utils.PositionsAscending | utils.js:81-84 | The marker positions the symmetric scan reacts to are strictly increasing and within the message. Each is a character equal to the marker. |
| Utils.PositionsComplete | utils.js:81-84 | Every character equal to the marker is one of those positions. |
| Utils.KeepSpec | utils.js:91-93 | Kept segments are never more than the raw ones, and each is non-empty and already trimmed. |
| Utils.KeepAppend | utils.js:91-93 | Filtering by trimmed content distributes over concatenation. |
| Utils.ScanSymmetric | utils.js:76-100 | The scan that toggles `insideQuote` at each marker character and keeps each non-blank piece between an opening and a closing marker, trimmed, equals `SymmetricSegments`: pairs of consecutive marker positions. |
| Utils.PositionsOfLongMarker | utils.js:84 | A single character never equals a marker whose length is not 1, so such a marker has no positions. |
| Utils.LongSymmetricMarkerSkips | utils.js:76-122 | With equal start and end markers longer than one character, nothing is ever extracted and the result is `skip`. |
| Utils.UnterminatedTailIgnored | utils.js:84-99 | A marker opened after an even number of markers and never closed contributes nothing. |
| Utils.WhitespaceSegmentSkips | utils.js:91-122 | The message `"   "` with `"` as both markers gives `skip`, because blank segments are dropped. |
| Utils.LazyEndSpec | utils.js:106 | The lazy group ends at the first occurrence of the end marker at or after its start. No line terminator lies in between. When no end is returned, every occurrence of the end marker lies beyond a line terminator. |
| Utils.ExecSpec | utils.js:106-109 | `regex.exec` from `lastIndex` finds the leftmost position with a match. No position between `lastIndex` and that match matches, and when it finds nothing, no position matches. |
| Utils.NextFrom | utils.js:109 | After a match, the next search starts strictly later and still within the message, so the loop terminates. |
| Utils.SpansCons | utils.js:109-114 | The matches from a position are the first match followed by the matches from just after its end marker. |
| Utils.SpansOrdered | utils.js:106-114 | Every match begins at or after the place where the previous one ended. Its start marker occurs there, and its capture ends at the first reachable end marker. |
| Utils.SpansLeftmost | utils.js:106-114 | No match begins in the gap between the point where one match ended and the start of the next. |
| Utils.SpansExhaustive | utils.js:109 | No match begins after the point where the last match ended. |
| Utils.CaptureSpec | utils.js:106-110 | A capture lies between the start marker and the end marker. It contains no line terminator and no earlier occurrence of the end marker. |
| Utils.ScanAsymmetric | utils.js:102-115 | The `exec` loop, which keeps each trimmed, non-empty capture, equals `AsymmetricSegments`. |
| Utils.SegmentsSpec | utils.js:73-115 | Every extracted segment is non-empty and trimmed, whichever branch produced it. |
| Utils.Extract | utils.js:67-123 | Mode `full` holds exactly when a marker is empty, and its text is the whole message. Mode `skip` holds exactly when there is no text. With both markers set, `skip` holds exactly when no segment was kept, and `marked` is the segments joined with single spaces. That text is non-empty and trimmed. |
| Utils.ExtractSpeakText | utils.js:67-123 | The method, with its two loops, returns `Extract`. |
| Utils.EmptyMessageSkips | utils.js:67-123 | An empty message with both markers set is skipped. |
| Utils.Invokes | utils.js:23 | A burst of calls is one `Invoke` tick per argument, in order. |
| Utils.DebounceStepSpec | utils.js:24-29 | A call replaces the pending argument and runs nothing. The wait elapsing runs the pending argument once, if there is one, and clears it. |
| Utils.BurstKeepsLast | utils.js:28-29 | After a burst of calls only the last argument is pending, and nothing has run. |
| Utils.FiredAppend | utils.js:21-31 | The runs in a trace are the runs of its first part, then the runs of its second part started from the first part's pending argument. |
| Utils.PendingAppend | utils.js:21-31 | The pending argument after a trace composes over concatenation. |
| Utils.LastCallWins | utils.js:21-31 | A burst of calls followed by one elapsed wait runs the function exactly once, with the last argument, and leaves nothing pending. |
| Utils.FiredAtMostPerElapse | utils.js:21-31 | The function never runs more often than the wait elapses. |
| Utils.Debouncer.constructor | utils.js:22 | A new debounced function has nothing pending. |
| Utils.Debouncer.Call | utils.js:23-29 | Calling cancels the previous timer and arms a new one with this argument. The new state is one `Invoke` step of the trace semantics. |
| Utils.Debouncer.Expire | utils.js:24-27 | When the wait elapses, the pending argument runs and nothing remains pending. This is one `Elapse` step of the trace semantics. |
| Strings.TrimStartSpec | utils.js:91-92 | Trimming the front removes exactly a leading run of JavaScript whitespace and line terminators. |
| Strings.TrimEndSpec | utils.js:91-92 | Trimming the end removes exactly a trailing run of whitespace and line terminators. |
| Strings.TrimSpec | utils.js:91-92 | `trim()` yields a trimmed string. It is empty exactly when the input is all whitespace, which is the falsy `currentText.trim()` test. |
| Strings.TrimOfTrimmed | utils.js:92 | `trim` is the identity on a trimmed string. |
| Strings.JoinTrimmed | utils.js:118 | Joining non-empty trimmed segments with `' '` gives a non-empty trimmed text that begins with the first segment. |
| Settings.GetDefaultSettings | settings.js:87-89 | The defaults are what `getSettings` returns when nothing is stored or the stored text cannot be parsed, and every default key is present in any read. |
| Settings.ReadSpec | settings.js:35-47 | A read has every default key. A stored field overrides the default, and every other key keeps its default value. |
| Settings.SaveThenRead | settings.js:35-57 | After `saveSettings(partial)`, a key set in `partial` reads back with its new value, and a key set to `undefined` falls back to its default. Every other key reads as before. |
| Settings.SaveIdempotent | settings.js:53-57 | Saving the same defined patch twice reads the same as saving it once. |
| Settings.ResetThenRead | settings.js:35-96 | After `resetSettings`, a read yields exactly the defaults. |
| Settings.GetCustomVoices | settings.js:124-126 | The stored custom-voice value when it is truthy, otherwise `[]`. |
| Settings.UpdateThenGetCustomVoices | settings.js:116-126 | After `updateCustomVoices(v)`, `getCustomVoices()` returns `v` when `v` is truthy, otherwise `[]`. |
| Settings.Register | settings.js:77-81 | Only a function is appended to the callback list, at the end. Any other argument leaves the list unchanged. |
| Settings.DeliveriesSpec | settings.js:61-67 | Every registered callback is called once, in registration order, with the same settings object. |
| Settings.ThrowingIsSubsequence | settings.js:62-66 | A callback that throws is caught and logged. The failures recorded are callbacks that were registered and that throw. |
| Settings.Store.constructor | settings.js:9-29 | A store with the given stored value and no callbacks. |
| Settings.Store.Notify | settings.js:61-67 | The loop calls every callback with the new settings, records the ones that throw and goes on. The stored value and the callback list stay unchanged. |
| Settings.Store.SaveSettings | settings.js:53-71 | When the write succeeds, the store holds the merge of the current settings and `partial`, and every callback receives that merged object. When the write throws, nothing changes and no callback runs. |
| Settings.Store.OnSettingsChange | settings.js:77-81 | The callback list becomes `Register(old, callback)`. Nothing else changes. |
| Settings.Store.ResetSettings | settings.js:94-110 | When the write succeeds, the store holds the defaults and every callback receives a copy of them. When it fails, nothing changes. |
| Settings.Store.UpdateCustomVoices | settings.js:116-118 | This is a save of `{customVoices: voices \|\| []}` under the same success and failure rules. |
| Tts.PresetVoices | tts.js:9-23 | Only `FunAudioLLM/CosyVoice2-0.5B` has preset voices, and they are its eight voices in table order. |
| Tts.VoiceParamSpec | tts.js:103-112 | A voice containing `:` is passed through unchanged. Any other voice is prefixed with `FunAudioLLM/CosyVoice2-0.5B:`, and the voice can be recovered after that prefix. Either way the parameter contains `:`. |
| Tts.VoiceParamIdempotent | tts.js:103-112 | The voice-parameter rule applied twice gives the same result as applied once. |
| Tts.GuardOrder | tts.js:76-104 | A missing API key refuses first, then an empty text, then an audio still playing. A request is sent exactly when all three pass and the resolved voice is a string. |
| Tts.RequestShape | tts.js:96-121 | The request uses the CosyVoice2 model, `mp3`, the given text and the resolved voice. The option voice has priority over the settings voice, and `alex` is used when neither is set. |
| Tts.RequestIgnoresFormatSettings | tts.js:114-121 | The stored `responseFormat`, `sampleRate` and `ttsModel` do not affect the request. |
| Tts.DefaultsSendNothing | tts.js:76-79 | With the default settings, which have no API key, nothing is sent. |
| Tts.PlayingBlocksUntilStopped | tts.js:150-175 | After a successful auto-played request, the audio is playing and any further request is refused. Stopping, or the audio ending, clears the flag, and requests are planned as if nothing had played. |
| Tts.NoAutoPlayKeepsFlag | tts.js:147-152 | Without auto-play the new audio becomes current, but the playing flag keeps its old value. |
| Tts.FailureKeepsState | tts.js:76-184 | A refused or failed request leaves `audioState` unchanged. |
| Tts.StopIsIdle | tts.js:408-414 | After stopping, nothing is playing and no audio is current. Stopping twice is the same as stopping once. |
| Tts.AudioState.constructor | tts.js:26-29 | The initial state is not playing, with no current audio. |
| Tts.AudioState.GenerateTTS | tts.js:72-185 | A request is sent exactly when the plan says send. A URL is returned when the request was sent and the reply succeeded. The new state follows `AfterGenerate`: on success the audio becomes current, and it is playing when auto-play is on. |
| Tts.AudioState.AudioFinished | tts.js:157-174 | The end, error or play-failure handler of the current audio clears both fields. |
| Tts.AudioState.StopCurrentAudio | tts.js:408-414 | The current audio, if any, is paused and dropped, and the playing flag is cleared. |
| Tts.SelectVoices | tts.js:216 | Reading `data.result \|\| data.results \|\| []` throws on `null` and otherwise picks the first truthy of the three, which is always truthy. |
| Tts.LoadCustomVoices | tts.js:191-230 | Without an API key nothing is requested and `[]` is returned. On a good reply the selected voices are returned and saved through `updateCustomVoices`. On a successful write every registered callback receives the merged settings once, in order, and the throwing ones are recorded as failures. A failed reply or a failed write returns the list or `[]` as above, leaves the stored settings as they were and notifies no callback. |
| Tts.LoadThenGetCustomVoices | tts.js:216-217 | After a successful load, `getCustomVoices()` returns the voices that were loaded. |
| Tts.UploadCheckSpec | tts.js:243-263 | An upload passes validation exactly when there is an API key and the name has 1 to 64 characters, all from `[a-zA-Z0-9_-]`. The text must also be non-empty and a file must be given. A well-formed request whose name contains another character is refused for the pattern. |
| Tts.UploadVoice | tts.js:239-355 | A validation failure is reported as such. Success means validation passed, the file was read and either the JSON or the form upload was accepted. A failure leaves the stored settings unchanged. A success refreshes the voice list through `loadCustomVoices`: with a non-null listing and a successful write the store holds the selected voices and every callback is notified of the merged settings, and otherwise the stored settings are unchanged. Every other outcome, failures included, notifies no callback. |
| Listener.ProcessMessageSpec | listener.js:36-63 | An empty message is not narrated, and an unset marker narrates the whole message. Otherwise the narration is the `marked` text, the whole message for `full`, and nothing for `skip`. |
| Listener.NarrationIsSpeakable | listener.js:36-63 | Whatever is handed to `generateTTS` is non-empty, so it passes the empty-text guard `tts.js:81-84`. |
| Listener.DefaultsNarrateWholeMessage | listener.js:43-57 | With the default settings (no markers), every non-empty message is narrated whole. |
| Listener.CharacterEventFiltered | listener.js:69-91 | A repeated message id, or auto-play turned off, changes nothing. Otherwise only the character timer changes: it is re-armed for the new id, replacing the previous one. |
| Listener.LastCharacterEventWins | listener.js:85-111 | A burst of new character ids arms one timer, for the last id. When it fires, that id is recorded and its element's text is processed. |
| Listener.CharacterFireRecordsId | listener.js:91-111 | A fired character timer records its id even when the element is missing. An id already handled in the meantime is skipped. |
| Listener.UserEventRecordsAtOnce | listener.js:120-139 | A user message id is recorded before its timer fires, so a second event for it is ignored. The character path is untouched. |
| Listener.UserPathKeepsCharacterTimer | listener.js:120-152 | No sequence of user events or user timers affects the character timer or the last character id. |
| Listener.UserTimersAccumulate | listener.js:139-151 | User timers are not cancelled: every accepted user event adds its own timer. |
| Listener.SetupSpec | listener.js:270-292 | Setup is a no-op once initialized, and otherwise leaves the listener initialized. It subscribes to the event feed when all four host features exist, and otherwise sets up the mutation observer. |
| Listener.MutationSetupSpec | listener.js:183-233 | Finding `#chat` resets the retry count and installs a new observer. An observer installed before stays connected as an orphan, so one more observer is connected. Missing it counts a retry, arms another attempt only below the limit of 5, and leaves the observers alone. |
| Listener.RetriesGiveUpAfterFive | listener.js:173-196 | With no chat container, exactly five attempts are made, after which no retry is armed. |
| Listener.FallbackDedup | listener.js:199-211 | The debounced handler marks its element as processed on every run, skips an element already processed, and speaks nothing for an element without text. |
| Listener.FallbackNarratesOnce | listener.js:199-204 | The same element handed to the debounced handler twice is narrated at most once. |
| Listener.ElementBurstKeepsLast | listener.js:240-251 | Two element timers firing in a row leave the debounced handler waiting only for the second element. |
| Listener.ArmedNodesSpec | listener.js:235-253 | The observer arms a timer for an element exactly when some added node is that element being `.mes`, or contains it as a `.mes` descendant. |
| Listener.ArmedSpec | listener.js:233-256 | The same holds across all mutation records of one callback. |
| Listener.ArmAddedNodes | listener.js:235-253 | The inner loop over added nodes arms exactly `ArmedNodes`, in order. |
| Listener.ArmMutations | listener.js:233-256 | One observer callback's loop over the mutation records arms exactly `Armed(mutations)`, in order. |
| Listener.StopSpec | listener.js:297-310 | Stopping disconnects the observer `listenerState.observer` refers to, cancels the character timer and clears `initialized`. Orphaned observers stay connected and go on arming element timers for every mutation batch. The handled ids, processed elements, user timers and retries are kept. |
| Listener.ResetSpec | listener.js:315-320 | Reset sets both handled ids back to `null` and forgets the processed elements, so the same non-null character id is accepted again, and a `null` id is still ignored. |
| Listener.NullIdIgnored | listener.js:73-124 | Both handled ids start out as `null` and are reset to `null`, and they are compared with `===`. So a character or user event with a `null` id changes nothing, both at the start and after a reset. |
| Listener.RetryOrphansObserverPastStop | listener.js:183-301 | A retry armed before a stop outlives it. After a setup without `#chat`, a stop, and a setup that finds `#chat`, the pending retry installs a second observer and orphans the first. The next stop disconnects only the second, and the orphan keeps arming element timers. |
| Listener.RepeatedDeliveryHarmless | listener.js:69-131 | A stop never unsubscribes the handlers registered at `listener.js:164-167`, so after a second setup each rendered message reaches its handler once per subscription. Any number of deliveries of one id, at least one, leave the listener state that a single delivery leaves, for character and for user messages alike. |
| Listener.SetupAfterStop | listener.js:270-310 | After a stop, setup runs again. With the event feed it subscribes a second time. |
| Listener.Listener.constructor | listener.js:21-29 | The initial listener state. |
| Listener.Listener.HandleCharacterMessage | listener.js:69-114 | The new state is `CharacterEvent` of the old one. |
| Listener.Listener.FireCharacterTimer | listener.js:91-113 | Firing the character timer yields `CharacterFire`: the new state and the text handed to processMessage. |
| Listener.Listener.HandleUserMessage | listener.js:120-152 | The new state is `UserEvent` of the old one. |
| Listener.Listener.FireUserTimer | listener.js:139-151 | Firing the oldest user timer yields `UserFire`. |
| Listener.Listener.SetupMutationObserver | listener.js:179-265 | The new state is `MutationSetup`, which counts an observer already installed as an orphan. |
| Listener.Listener.FireRetry | listener.js:191 | A retry timer fires and runs `MutationSetup` again, so finding `#chat` while an observer is installed connects a second one. |
| Listener.Listener.SetupMessageListener | listener.js:270-292 | The new state is `Setup`. |
| Listener.Listener.OnMutations | listener.js:233-256 | Every connected observer's callback runs on the batch. Each appends `Armed(mutations)` to the element timers, orphans included, and nothing is armed when no observer is connected. |
| Listener.Listener.FireElementTimer | listener.js:240-250 | The oldest element timer fires and calls the debounced handler (as `ElementFire` states). |
| Listener.Listener.FireDebounced | listener.js:199-230 | The debounced handler's run yields `DebounceFire`. |
| Listener.Listener.StopMessageListener | listener.js:297-310 | The new state is `Stop`: only the referenced observer is disconnected, and orphans stay connected. |
| Listener.Listener.ResetListenerState | listener.js:315-320 | The new state is `Reset`. |
| Ui.VoiceNameFallback | ui.js:391 | The name shown is the first truthy of `name`, `customName` and `custom_name`, else `未命名`, so it is always truthy. |
| Ui.VoiceUriFallback | ui.js:392 | The value used is the first truthy of `uri` and `id`, else `voice_id` whatever it is. With none of them, the option value renders as the text `undefined`. |
| Ui.OptionListSpec | ui.js:375-397 | The drop-down holds the eight presets in table order for the CosyVoice2 model, and no preset for any other model. These are followed by one option per custom voice, in order, each valued by its uri and labelled with its name and ` (自定义)`. |
| Ui.SelectionKeptIff | ui.js:400-401 | A non-empty previous selection is kept exactly when an option with that value is offered. |
| Ui.SelectionIsOffered | ui.js:399-406 | Whatever ends up selected is one of the offered options, or no selection at all. |
| Ui.SelectionFallsBackToFirstPreset | ui.js:402-405 | With no previous selection and no stored voice, the CosyVoice2 drop-down selects `alex`, the first preset. |
| Ui.VoiceSelect.constructor | ui.js:371 | An empty drop-down with no selection. |
| Ui.VoiceSelect.UpdateVoiceOptions | ui.js:369-407 | The options become `OptionList` for the model, which falls back to CosyVoice2 when no model is chosen. The selection becomes `Selection` of the previous one over the new options. |
| Ui.AddPresetOptions | ui.js:376-382 | The preset loop appends exactly the model's preset options. |
| Ui.AddCustomOptions | ui.js:388-397 | The custom-voice loop appends one `CustomOption` per voice, in order. |
| Ui.CustomVoiceEntriesSpec | ui.js:412-434 | An empty list shows only the placeholder. Otherwise the list shows one entry per voice, in order, and no placeholder. |
| Ui.EntryMatchesOption | ui.js:423-424 | A list entry's delete button carries the same uri as that voice's drop-down option. |
| Ui.UpdateCustomVoicesList | ui.js:412-434 | The rendering loop produces exactly `CustomVoiceEntries`. |
| Ui.CheckboxCoercion | ui.js:334-335 | Auto-play is checked unless it is exactly `false`. Auto-play-user is checked only when it is exactly `true`. For boolean values both checkboxes show the value itself. |
| Ui.CheckboxRoundTrip | ui.js:334-335 | Saving a checkbox value and rendering again shows the same checkbox state. |
| Ui.RenderedSelectionSpec | ui.js:338-341 | When a voice is stored, rendering selects it when the drop-down offers it, and otherwise selects nothing. |
| Ui.Injector.constructor | ui.js:44-45 | The panel starts out not injected. |
| Ui.Injector.InjectUI | ui.js:44-85 | An injected panel is never injected again. A failed fetch injects nothing. After a fetch, the panel is mounted, or a floating panel is created when no mount point exists (`ui.js:152-158`). Both paths set `uiInjected`, and both render from settings. |
| Ui.InjectOnce | ui.js:45-69 | A call is `AlreadyInjected` exactly when the panel was injected before. It mounts a panel, at the mount point or floating, exactly when it was not injected before and the fetch succeeded. The floating panel is chosen exactly when the mount point is missing. |

## Left out

- I/O is not modelled: the HTTP requests, the DOM, `localStorage` access, `Audio` playback, `FileReader`, `URL.createObjectURL` and logging. Their outcomes are parameters (`ok`, `writeOk`, `reply`, `chatFound`, `view`, `throws`).
- Time is not modelled: timers are events that a caller fires explicitly, so the relative ordering of timers scheduled for milliseconds apart is not modelled.
- Asynchrony is not modelled: each `async` function is one atomic step, so two overlapping `generateTTS` calls cannot interleave.
- `testConnection` and `deleteCustomVoice` (`tts.js`) are not modelled. They are network round trips with no decision logic beyond the API-key guard.
- These parts of `ui.js` are not modelled, because they are DOM layout and event wiring:
  - `createFloatingPanel` (except its effect on `uiInjected`);
  - `injectCSS`;
  - `setupDrawerToggle`;
  - `bindUIHandlers`;
  - `readSettingsFromUI` and its `parseFloat`.
- `main.js` and `example-tavern-helper-entry.js` are not part of this model. They are start-up wiring.
- `log`, `warn`, `error` and `showToast` are left out, since they only produce output.
- `processedMessageIds` (`listener.js:28`) is never read or written, so it has no model.
- `renderFromSettings`'s text fields (`ui.js:325-333`) only copy values into inputs, so they have no model.
- Utils.ExtractSpeakText: characters are Unicode scalar values, not UTF-16 code units. A marker written as a surrogate pair therefore counts as one character here but as two in JavaScript.
- Utils.LazyEnd: only `\n`, `\r`, U+2028 and U+2029 stop the lazy group, which are the only characters the `.` of a regular expression without the `s` flag refuses.
- Json.Render: a fractional number is rendered only as its integer part followed by a `.`. The exact decimal form JavaScript prints is not modelled, and nothing proved depends on it.
- Settings.Spread: a stored value that parses to a string or an array contributes no keys. In JavaScript, spreading one adds its indices as keys.
- Settings.Read: the `JSON.stringify` and `JSON.parse` round trip is taken as exact for the values modelled. Numbers are reals and `undefined` fields are dropped, as `JSON.stringify` drops them.
- The storage key `jg-yuyin:settings` is not modelled, because there is only one store.
- Tts.PlanTTS: a voice value that is an array has `includes` in JavaScript, so it would be sent. It is treated here like any other non-string voice, which throws and is refused.
- Tts.UploadVoice: the base64-to-`Blob` conversion loop for the form upload (`tts.js:303-313`) is not modelled. Only whether each upload attempt is accepted is a parameter.
- Ui.VoiceName: a `null` entry in the custom-voice list throws in JavaScript. Here it is read as an entry without properties.
- Ui.VoiceSelect.UpdateVoiceOptions: the custom-voice list is taken to be an array. The `(自定义)` label is modelled as text, without HTML escaping. An option value written with characters that the `option[value="…"]` selector would misparse is not modelled.
- Ui.ValText: jQuery's `.val()` with an array argument (multi-select matching) is not modelled. Any value other than a string, a number, `null` or `undefined` selects nothing.
- Listener.Observe: every connected observer arms its own element timers, orphans included. In JavaScript each observer also has its own debounced handler, but here all element timers feed a single one. Two observers' timers for the same element therefore share one debounce wait, not two. The shared `processedElements` set still narrates an element at most once.
- Listener.Setup: an exception thrown by `eventSource.on` during `setupMessageListener` (`listener.js:284`) is not modelled. Setup always ends initialized, while in JavaScript the throw skips `listener.js:290`.
- Listener.CharacterEvent: ids are compared by structural equality of values. JavaScript's `===` compares objects by identity, which makes no difference for the string and number ids SillyTavern passes.
- Listener.CharacterFire: after firing, `processingTimeout` still holds the fired timer's id in JavaScript. Here the slot is cleared, because clearing a fired timer has no effect.
