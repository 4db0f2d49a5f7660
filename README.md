# Assistive voice board — playback controller model

A Dafny model of the assistive-communication board: large phrase buttons grouped
under category tabs which, when tapped, play a pre-recorded clip and fall back to
on-device speech synthesis when the clip cannot be played.

The core is the playback hook `useAudio`, a small event-driven state machine over
the `isPlaying` flag, the audio handle (`audioRef`) and the speech handle
(`utteranceRef`). Around it sit the root component's path construction, its tab
selection, and the static category/phrase table.

- `option.dfy` (module `Optional`): JavaScript `null`-or-value arguments as
  `Option`, and the truthiness test applied to an optional file name.
- `default_phrases.dfy` (module `DefaultPhrases`): the built-in table as a constant
  function. Its contract states the invariants the rendering keys rely on.
- `playback.dfy` (module `Playback`): the reference model of the hook.
  - `PlayerState` holds the flag, the two handles, an identity allocator and a log
    of the calls the hook makes into the browser.
  - `Event` lists what can happen next. A caller can invoke `play` or `stop`, or
    the browser can fire one of the callbacks installed on a clip or an utterance.
  - `Step` and `Run` apply events. The lemmas state what the hook promises.
- `use_audio.dfy` (module `UseAudio`): the hook as class `AudioHook`. There is one
  method per transition and per callback, and each updates the fields in place.
  Each method is proved to perform the transition `Step` gives it.
- `app.dfy` (module `Board`): the path a button hands to `play`, the end-to-end
  source a phrase resolves to, and class `App`. `App` holds `activeTab` and the
  hook, and has methods for a tab click, a phrase tap and the stop control.

The browser is an abstract environment. It only chooses which callback fires next,
and `Feasible` restricts it to callbacks on clips and utterances the hook actually
created. Whether speech synthesis exists is a boolean parameter. `new Audio(...)`
and `new SpeechSynthesisUtterance(...)` are handles with a fresh identity. The
hook's calls into the browser are recorded in order: load, `play()`, `pause()`,
rewind to time 0, `cancel()` and `speak()`.

Three behaviours of the code are worth pinning down:

- The phrase buttons are disabled while the flag is set
  (src/components/VoiceButton.jsx:39), so one phrase is meant to play at a time.
  But `play` stops the previous session only when the flag is already set
  (src/hooks/useAudio.js:77-79). A clip that is still loading is therefore not
  stopped, and the buttons are enabled while it loads.
  `LoadingClipIsNotStopped` shows two taps whose clips are both started and never
  paused.
- The `ended` callback of any clip clears whatever the audio handle holds
  (src/hooks/useAudio.js:62-65). After such an overlap, a later `stop` no longer
  reaches the clip that is still sounding (`StaleEndLeavesClipUnstopped`).
- The error and rejection callbacks of a clip leave it in the audio handle
  (src/hooks/useAudio.js:56-59, 67-70). It stays there until `stop` pauses and
  drops it, `play` overwrites it, or some clip's `ended` clears it.

## Model

| member | source | states |
|---|---|---|
| DefaultPhrases.DefaultCategories | src/data/defaultPhrases.js:4-31 | There are exactly two categories, `daily` then `eating`. Their ids are distinct. Each holds six phrases with pairwise distinct texts. Every phrase's file is its text followed by `.mp3`. |
| Playback.AfterStop | src/hooks/useAudio.js:13-28 | The transition of `stop`. The flag is false and no clip is held. The utterance is dropped when synthesis exists and kept otherwise. No identity is allocated, and the call log only grows. |
| Playback.AfterSpeak | src/hooks/useAudio.js:30-48 | The transition of `playWithTTS`. The audio handle is never touched. Without synthesis, the flag is cleared and nothing else changes. With synthesis, the flag is kept, a fresh utterance of the text becomes the speech handle, and the only new call speaks it. |
| Playback.AfterLoad | src/hooks/useAudio.js:50-73 | The transition of `playWithAudio`. A fresh clip of the source, with the fallback text, becomes the audio handle. The only new call loads it. The flag and the utterance are kept. |
| Playback.AfterPlay | src/hooks/useAudio.js:75-86 | The transition of `play`. The flag ends false. A fresh clip of the resolved source, with the word as fallback, becomes the audio handle, and its load is the last call. The utterance is dropped only when the flag was set and synthesis exists. |
| Playback.Step | src/hooks/useAudio.js:13-86 | One transition for each caller action and each installed callback. The call log only grows, and the identity counter never decreases. After `play`, the audio handle holds a clip whose fallback is the played word. |
| Playback.ResolveSource | src/hooks/useAudio.js:82 | `play` loads the given file when it is truthy (non-null, non-empty). Otherwise it loads exactly `/audio/<word>.mp3`. The source is never empty. |
| Playback.StopHalts | src/hooks/useAudio.js:13-28 | After `stop` the flag is false and no clip is held. The utterance is dropped exactly when synthesis exists and is otherwise unchanged. The held clip, and no other, is paused and then rewound. Speech is cancelled if and only if synthesis exists. |
| Playback.StopIdempotent | src/hooks/useAudio.js:13-28 | A second `stop` leaves the flag and both handles as one call did. It pauses nothing more and only repeats the cancel of speech. |
| Playback.PlayStopsOnlyWhenPlaying | src/hooks/useAudio.js:75-86 | `play` stops the session first exactly when the flag is set. Otherwise the only new call is the load of a fresh clip, which replaces the old handle without pausing it. The new clip carries the resolved source and the word as its fallback text. |
| Playback.FailureFallsBackToSpeech | src/hooks/useAudio.js:54-70 | A load error and a rejected `play()` have the same effect. With synthesis, each creates and speaks an utterance of the clip's fallback text. The failed clip stays the audio handle. With synthesis, the flag is untouched. |
| Playback.SpeakWithoutSynthesis | src/hooks/useAudio.js:30-35 | Without synthesis, `playWithTTS` clears the flag and changes nothing else. |
| Playback.AudioHandleClearedOnlyOnEnd | src/hooks/useAudio.js:56-70 | On `ended` the audio handle is cleared. On a load error or a rejected play it is kept. |
| Playback.FlagChanges | src/hooks/useAudio.js:27-63 | The flag rises only on `canplaythrough` or an utterance's start, and both always set it. It falls only on `ended`, an utterance's end or error, `stop`, `play` while playing, or an audio failure when synthesis is missing. |
| Playback.QuietRunStaysQuiet | src/hooks/useAudio.js:42-55 | In any run without `canplaythrough` or utterance start, a cleared flag stays cleared. |
| Playback.BusyRunStaysBusy | src/hooks/useAudio.js:27-65 | In any run without a lowering event, a set flag stays set. |
| Playback.WithoutSynthesisNothingIsSpoken | src/hooks/useAudio.js:30-35 | Without synthesis, over any sequence of events, the speech handle never changes and nothing is ever spoken. |
| Playback.SpokenTextsArePlayedWords | src/hooks/useAudio.js:50-86 | From the initial state, over any feasible run, every utterance the hook speaks says a word that was passed to `play`. |
| Playback.LoadingClipIsNotStopped | src/hooks/useAudio.js:75-86 | Tap 渴, then tap 熱 before 渴 has loaded, and let both clips become playable. Both clips are started, neither is paused, and the flag is set. |
| Playback.StaleEndLeavesClipUnstopped | src/hooks/useAudio.js:62-65 | Continuing that run, the first clip's `ended` clears the handle of the second. A later `stop` then never pauses the second clip, although it was started. |
| UseAudio.AudioHook.constructor | src/hooks/useAudio.js:9-11 | The hook starts with the flag false, no handles and no calls made. |
| UseAudio.AudioHook.Stop | src/hooks/useAudio.js:13-28 | The flag is false and no clip is held. The utterance is dropped exactly when synthesis exists. The new state is `AfterStop` of the old one. |
| UseAudio.AudioHook.PlayWithTTS | src/hooks/useAudio.js:30-48 | Without synthesis, only the flag is cleared. With it, a fresh utterance of the text becomes the speech handle and the flag and audio handle are untouched. The new state is `AfterSpeak` of the old one. |
| UseAudio.AudioHook.PlayWithAudio | src/hooks/useAudio.js:50-73 | A fresh clip of the source, with the fallback text, becomes the audio handle. The flag and the utterance are untouched. The new state is `AfterLoad` of the old one. |
| UseAudio.AudioHook.Play | src/hooks/useAudio.js:75-86 | A fresh clip of the resolved source, with the word as fallback, becomes the audio handle, and the flag ends false. The new state is `AfterPlay` of the old one. |
| UseAudio.AudioHook.OnCanPlayThrough | src/hooks/useAudio.js:54-56 | Sets the flag and starts the clip. |
| UseAudio.AudioHook.OnPlayRejected | src/hooks/useAudio.js:56-59 | Falls back to speech of the clip's text and keeps the audio handle. |
| UseAudio.AudioHook.OnEnded | src/hooks/useAudio.js:62-65 | Clears the flag and the audio handle. |
| UseAudio.AudioHook.OnLoadError | src/hooks/useAudio.js:67-70 | Falls back to speech of the clip's text and keeps the audio handle. |
| UseAudio.AudioHook.OnSpeechStart | src/hooks/useAudio.js:42 | Sets the flag and changes nothing else. |
| UseAudio.AudioHook.OnSpeechEnd | src/hooks/useAudio.js:43 | Clears the flag and changes nothing else. |
| UseAudio.AudioHook.OnSpeechError | src/hooks/useAudio.js:44 | Clears the flag and changes nothing else. |
| UseAudio.AudioHook.Deliver | src/hooks/useAudio.js:42-70 | Delivering any event to the object performs exactly the model's `Step`. |
| Board.ClickPath | src/App.jsx:12-14 | A tap with a truthy file hands `play` the path `/audio/<file>`, which is itself truthy. A null or empty file hands it null. |
| Board.ClickResolvesTo | src/App.jsx:13 | End to end, a phrase with file `f` plays `/audio/<f>`, and one without a file plays `/audio/<word>.mp3`. |
| Board.BuiltInPhrasePlaysOwnName | src/data/defaultPhrases.js:9-29 | For every built-in phrase, the explicit path and the default path coincide, and both are `/audio/<text>.mp3`. |
| Board.MissingClipFallsBackToSpeech | src/hooks/useAudio.js:67-70 | A tap on 飽 whose clip is missing leads to a load error, then speech of 飽. The flag rises on the start of speech and falls on its end. |
| Board.SilentWhenEverythingFails | src/hooks/useAudio.js:31-35 | With the clip missing and no synthesis, the flag ends false and nothing is spoken. |
| Board.App.constructor | src/App.jsx:9-10 | `activeTab` starts at 0, and the hook starts idle. |
| Board.App.CurrentCategory | src/App.jsx:16 | The visible category is one of the table's, with six phrases. |
| Board.App.SelectTab | src/App.jsx:32-36 | A tab click within range sets only `activeTab`. The shown category becomes the table's entry at that index, and the hook is left unchanged. |
| Board.App.HandleVoiceButtonClick | src/App.jsx:12-14 | A click performs `play(word, ClickPath(audioFile))` on the hook and leaves the tab alone. |
| Board.App.TapPhrase | src/App.jsx:45-53 | While something plays, the disabled button does nothing. Otherwise the button forwards its phrase's own text and file, and the hook loads `/audio/<text>.mp3` with the text as fallback. |
| Board.App.PressStop | src/App.jsx:57-60 | The stop control, available only while the flag is set, performs `stop`. |

## Left out

- Rendering, CSS classes and the Tailwind theme are left out. They are presentation only.
- The tab and button components (src/components/TabPanel.jsx and src/components/VoiceButton.jsx) are not modelled, apart from two points. Tab indices are in range, which `App.SelectTab` takes as a precondition. A button is disabled while the flag is set, which `App.TapPhrase` models.
- The browser's audio and speech engines are not modelled: decoding, actual sound, and when each callback fires. The environment chooses the callbacks, and `Feasible` limits it to objects that exist.
- Promise asynchrony and React re-render timing are not modelled. This includes the `isPlaying` value a `useCallback` closure may have captured. `play` reads the current field.
- The speech rate (0.9), volume (1) and the `zh-TW` language tag are fixed configuration constants with no logic, so they are not modelled. Console logging is not modelled either.
- Object identity of the audio and utterance objects is modelled as a counter of allocated handles. The model does not say that the browser treats two objects with different identities independently.
