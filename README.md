# Teleprompter Studio — a Dafny model of its state machine

Teleprompter Studio is a small React application. The operator types or
loads a script, submits it, and the teleprompter screen then highlights the
script word by word at an adjustable speed while the browser records audio.
This project models the part of it that has rules:

- `text.dfy` (module `Text`): the two string operations the app relies on.
  `String.prototype.trim` is the submit gate; `split(/\s+/).filter(Boolean)`
  is the tokenizer. Both use one whitespace predicate, the WhiteSpace and
  LineTerminator productions of ECMA-262 (sections 12.2 and 12.3). Trim is
  proved to cut only whitespace, at both ends. The tokenizer is proved to
  yield non-empty whitespace-free words that spell the script's visible
  characters in order. It yields nothing exactly for blank scripts, and it
  distributes over a whitespace separator, which determines it completely.
- `audio_recorder.dfy` (module `AudioRecorder`): the `useAudioRecorder`
  hook as a class `AudioRecorderHook` with the status, the audio URL, the
  media-recorder reference and the chunk buffer as fields. Each callback is
  an atomic method specified by a pure transition on a `Snapshot` of those
  fields. The invariant `Consistent` is preserved by every handler: a
  recorder records only while the status is `Recording`, and the buffer
  holds only chunks with data.
- `teleprompter.dfy` (module `Teleprompter`): the teleprompter screen as a
  class `TeleprompterScreen` with `currentIndex`, `isScrolling` and
  `scrollSpeed`, owning a recorder hook. Start, stop and the word timer's
  tick are methods specified by pure transitions on the `(index, scrolling)`
  pair. The main theorem is that after start and k ticks the index is
  min(k, n-1) for a script of n ≥ 1 words. The screen's view derivations
  are pure functions with lemmas: the active word, the placeholder, the
  start/stop button, the slider lock and the download link.
- `script_input.dfy` (module `ScriptInput`): the editor's script field,
  its submit gate `Submission` and the submit button's disabled flag.
- `app.dfy` (module `App`): the two-page navigation and `renderContent`.
  It also models the editor's submit wired to `handleScriptSubmit`. The
  shell's invariant is that the teleprompter page has a script with at least
  one word. Going back keeps the invariant. The editor's submit always keeps
  it, and `handleScriptSubmit` keeps it exactly when the script it is given
  has a word.
- `wrappers.dfy` (module `Wrappers`): `Option`, for nullable state and for
  "the callback was called with this value, or not at all".

The model follows the code:

- The controller's whole state is the current word index, the scrolling
  flag and the speed; the recording status lives in the recorder hook.
- Start moves to word 0 and starts scrolling at once. It does not wait for
  the recording to start, and it does not roll back when the recording
  fails.
- With an empty word list, start still sets the index to 0, one past the
  last word. The first tick then stops.
- Stop keeps the current index, so the words stay on screen.

## Model

| member | source | states |
|---|---|---|
| `Text.TokensAreWords` | components/Teleprompter.tsx:12 | every token is non-empty and contains no whitespace |
| `Text.TokensSpellScript` | components/Teleprompter.tsx:12 | the tokens, concatenated in order, are exactly the script's non-whitespace characters (nothing lost, added or reordered) |
| `Text.TokenizeEmptyIff` | components/Teleprompter.tsx:12 | a script has no words if and only if it is empty or all whitespace |
| `Text.TokenizeWord` | components/Teleprompter.tsx:12 | a non-empty run without whitespace is one token |
| `Text.TokenizeSeparated` | components/Teleprompter.tsx:12 | the words of `a + [ws] + b` are the words of `a` followed by the words of `b`; a run of whitespace is a single separator |
| `Text.TokenizeTrim` | components/ScriptInput.tsx:26 | trimming a script does not change its words |
| `Text.TrimIsSlice` | components/ScriptInput.tsx:25 | `trim` returns the slice of the script between a whitespace-only prefix and a whitespace-only suffix |
| `Text.TrimEnds` | components/ScriptInput.tsx:26 | a non-empty trimmed string starts and ends with a non-whitespace character |
| `Text.TrimEmptyIff` | components/ScriptInput.tsx:25 | the trimmed string is empty if and only if the script is all whitespace |
| `Text.TrimKeepsVisible` | components/ScriptInput.tsx:26 | trimming removes whitespace only: the non-whitespace characters are kept in order |
| `Text.TrimIdempotent` | components/ScriptInput.tsx:25-26 | trimming twice gives the same string as trimming once |
| `AudioRecorder.StartEffects` | hooks/useAudioRecorder.ts:12-43 | start while recording changes nothing. Otherwise only success leaves the status recording, and every failure leaves it inactive. A device failure leaves URL, buffer and recorder untouched; every later outcome clears the URL and empties the buffer. The recorder is recording exactly after success |
| `AudioRecorder.HandlersKeepConsistent` | hooks/useAudioRecorder.ts:12-49 | start, the data event, the stop command and the stop event preserve `Consistent` (a recording recorder implies status recording; every buffered chunk has data) |
| `AudioRecorder.AppendChunk` | hooks/useAudioRecorder.ts:24-27 | a chunk with data is appended at the end, an empty one is dropped, and the existing chunks keep their order and values |
| `AudioRecorder.StopCommand` | hooks/useAudioRecorder.ts:45-49 | afterwards no recorder is recording; a recorder that was recording is told to stop, otherwise nothing changes |
| `AudioRecorder.StopCommandIdempotent` | hooks/useAudioRecorder.ts:45-49 | repeated stop commands act as one |
| `AudioRecorder.AudioRecorderHook.constructor` | hooks/useAudioRecorder.ts:7-10 | the hook starts inactive with no URL, no recorder and an empty buffer |
| `AudioRecorder.AudioRecorderHook.StartRecording` | hooks/useAudioRecorder.ts:12-43 | the new fields are `AfterStart` of the old ones and the outcome; the invariant is kept |
| `AudioRecorder.AudioRecorderHook.OnDataAvailable` | hooks/useAudioRecorder.ts:24-28 | the buffer becomes `AppendChunk` of the old buffer and the chunk |
| `AudioRecorder.AudioRecorderHook.OnStop` | hooks/useAudioRecorder.ts:30-36 | the new state is `AfterStopEvent` of the old one: the URL becomes the published (non-empty) object URL and the status becomes stopped; the invariant is kept |
| `AudioRecorder.AudioRecorderHook.StopRecording` | hooks/useAudioRecorder.ts:45-49 | reports whether the recorder was recording, and stops it only in that case |
| `Teleprompter.AdvanceStep` | components/Teleprompter.tsx:32-45 | a tick with the timer off changes nothing; with the timer on it adds exactly one before the last word (both directions), and at or past the last word it keeps the index and stops (both directions) |
| `Teleprompter.HandlersKeepReachable` | components/Teleprompter.tsx:20-41 | start, stop and tick keep the index between -1 and max(n,1)-1 with scrolling only at a word position; a tick never decreases the index |
| `Teleprompter.RunFromStart` | components/Teleprompter.tsx:25-41 | after start and k ticks: for n ≥ 1 words the index is min(k, n-1) and scrolling holds exactly while k < n; for no words the index stays 0 and the first tick stops |
| `Teleprompter.RunIsMonotone` | components/Teleprompter.tsx:35-41 | along a run from start the index never decreases and never exceeds n-1 for n ≥ 1 |
| `Teleprompter.ActiveWordCount` | components/Teleprompter.tsx:56-65 | exactly one rendered word is active when 0 ≤ index < n, and none otherwise (in particular none at index -1) |
| `Teleprompter.StopKeepsWords` | components/Teleprompter.tsx:80 | in a reachable state the words are shown exactly when the index is not -1; stop keeps them shown; the placeholder is shown before start and not after |
| `Teleprompter.ButtonFollowsRecorder` | components/Teleprompter.tsx:101-109 | a consistent hook never offers the start button while its media recorder is running; after a start the stop button is shown iff recording was already on or the start succeeded; after the stop event and initially the start button is shown |
| `Teleprompter.SliderLockedWithStopButton` | components/Teleprompter.tsx:125 | the speed slider is disabled iff the status is recording, that is iff the stop button is shown |
| `Teleprompter.DownloadFollowsRecording` | components/Teleprompter.tsx:88-97 | the download link is absent initially, shown after the stop event publishes an object URL, hidden by every start that passes the device request, and left as it was by a start that is ignored or fails at the device request |
| `Teleprompter.TeleprompterScreen.constructor` | components/Teleprompter.tsx:12-17 | a fresh screen has the script's tokens, index -1, no scrolling, speed 2 and a fresh recorder in its initial state |
| `Teleprompter.TeleprompterScreen.HandleStop` | components/Teleprompter.tsx:20-23 | scrolling becomes false, the index is unchanged, and the recorder receives the stop command |
| `Teleprompter.TeleprompterScreen.HandleStart` | components/Teleprompter.tsx:25-29 | index 0 and scrolling, whatever the recorder's outcome; the recorder moves by `AfterStart` |
| `Teleprompter.TeleprompterScreen.Tick` | components/Teleprompter.tsx:31-45 | the state moves by `Advance`; the recorder receives the stop command exactly when the tick stops at the last word |
| `Teleprompter.TeleprompterScreen.ChangeSpeed` | components/Teleprompter.tsx:116-125 | the speed takes the new value unless the slider is disabled (status recording) |
| `ScriptInput.Submission` | components/ScriptInput.tsx:24-28 | the callback is called iff the script is not all whitespace. The submitted value is non-empty, has no whitespace at either end, and has the script's words, of which there is at least one |
| `ScriptInput.SubmitDisabled` | components/ScriptInput.tsx:57 | the submit button is disabled iff submitting would not call the callback, iff the script is all whitespace |
| `ScriptInput.ScriptInputForm.constructor` | components/ScriptInput.tsx:10 | the editor starts with an empty script and a disabled submit button |
| `ScriptInput.ScriptInputForm.SetScript` | components/ScriptInput.tsx:41 | typing (and, equally, a loaded file at line 18) replaces the script wholesale |
| `ScriptInput.ScriptInputForm.HandleSubmit` | components/ScriptInput.tsx:24-28 | returns the value handed to the callback, `Submission` of the script, which is the trimmed script |
| `App.RenderContent` | App.tsx:20-29 | the teleprompter, with the stored script, is rendered iff the page is TELEPROMPTER; the editor otherwise |
| `App.AppShell.constructor` | App.tsx:8-9 | the app starts on the editor with an empty stored script |
| `App.AppShell.HandleScriptSubmit` | App.tsx:11-14 | stores the given script and moves to the teleprompter page; the shell's invariant holds afterwards iff the script has a word |
| `App.AppShell.HandleBackToInput` | App.tsx:16-18 | moves to the editor and keeps the stored script, from any state; the invariant holds afterwards |
| `App.AppShell.SubmitFromEditor` | App.tsx:23 | the editor's submit wired to `handleScriptSubmit`: on submit the app shows the teleprompter with the trimmed script, whose words are those typed and are never none; otherwise nothing changes; on submit the invariant holds afterwards, and it is always kept |

## Left out

- Timing: the interval period `1000 / scrollSpeed` and the slider's range, step and `parseFloat` are floating-point wall-clock behaviour. A tick is an abstract event, and the speed is an opaque `real` that is stored and otherwise not used.
- DOM scrolling of the active word (`querySelector`, `scrollIntoView`), the JSX layout, CSS classes and icons.
- Browser audio APIs (`getUserMedia`, `MediaRecorder`, `Blob` construction, `URL.createObjectURL`, stopping the stream's tracks, `console.error`). The start's outcome is an input. The recorder is reduced to "none, or recording or not". The object URL is an input of the stop event, and its relation to the buffered chunks is not modelled.
- Asynchrony: the pending `startRecording` promise, the events the recorder fires after a stop, and the timer are not interleaved with each other. Each callback runs atomically on the current state. In particular, the guard of `startRecording` reads the current status, not the one captured when the callback was created.
- `AudioRecorder.AudioRecorderHook.OnStop`: its preconditions take two browser guarantees. The stop event follows the recorder leaving the recording state, and `URL.createObjectURL` returns a non-empty `blob:` URL. That the event fires once per stop is not modelled.
- Component lifecycle: mounting a fresh teleprompter screen when the page changes, clearing the interval on unmount, and the recorder left running when the operator goes back during a recording. The model has no link between `App.AppShell` and a `Teleprompter.TeleprompterScreen` instance.
- `FileReader` loading: only its effect, replacing the script with the loaded text, is modelled (by `SetScript`).
- The `AppState` enum lives in a file that is not part of this model. It is modelled as a two-valued datatype, so the `default` branch of `renderContent` is unreachable and does not appear.
- The side effect of calling `handleStop` inside a React state updater (and a second call of that updater in React's strict mode) is not modelled.
