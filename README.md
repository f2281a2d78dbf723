# Voice chat: speech engine and conversation loop

This project models the logic that `voicechat.py` owns itself, around the
libraries it drives:

- **Model selection.** `CustomVoiceTTS.__init__` tries up to three TTS model
  names in order and keeps the first that loads. A Mac without a GPU tries
  only the first two.
- **Speaking one text.** `CustomVoiceTTS.speak(text)` works in this order:
  - It looks up a cache file keyed by `text.strip().lower()`.
  - On a miss it synthesizes with the loaded model. The first call passes
    `language` and, when a voice sample is set and the model can clone, also
    `speaker_wav`. A `TypeError` leads to one retry without them.
  - It copies the result into the cache, plays it and deletes `response.wav`.
  - On any other failure, or when no model loaded, it falls back to gTTS in
    Vietnamese (`_fallback_gtts`).
- **Voice sample.** Recording a sample, or naming an existing file, sets the
  voice sample path.
- **Conversation loop.** `main`'s `while True` loop greets the user, then
  handles each recognition result:
  - It leaves with a farewell when the lower-cased transcript contains
    "dừng lại" or "tạm biệt".
  - It speaks the Gemini reply to any other transcript.
  - It apologises on `UnknownValueError` and `RequestError`.
  - It stays silent on a timeout or any other error.

The project has five modules:

- `Text` (`text.dfy`): Python's `str.strip()`, `str.lower()` and the substring
  test `in`.
- `Speech` (`speech.dfy`): the datatypes, plus `speak` as a pure function
  `SpeakTurn`. Its arguments are:
  - the model's capabilities, or none;
  - the voice sample;
  - the disk (the set of cached keys and whether `response.wav` exists);
  - the text;
  - an `Oracle`, which gives the outcome of each library call.

  It returns the new disk and the sequence of external calls made.
  `SpeakAll` chains any number of calls.
- `IntendedSpeech` (`intended.dfy`): `speak` as its comments describe the
  fallback path, with the fallback's audio cached. It serves as
  a reference definition to compare against the code.
- `Engine` (`engine.dfy`): the class `VoiceEngine`, with:
  - the constructor and its model-selection loop (`SelectModel`);
  - `Speak`, proved against `SpeakTurn`;
  - the setters of the voice sample path.
- `Conversation` (`conversation.dfy`), with:
  - `React`, what one pass of the loop decides;
  - `Converse`, the loop over a finite stream of recognition results;
  - `Run`, the imperative loop driving a `VoiceEngine`, proved against
    `Converse` and `SpeakAll`.

Inputs stand in for what the program cannot compute itself:

- whether each model name loads, and the loaded model's capabilities;
- the outcome of each `tts_to_file`, gTTS, copy and delete call;
- the recognition results;
- the Gemini reply, as a function `respond`;
- whether a named sample file exists.

### The comments and the code disagree on caching gTTS audio

The comments at lines 183 ("Lưu vào cache") and 251 ("Lưu vào cache nếu
thành công") say the fallback's audio is saved into the cache. If it were,
speaking the same text twice with no model loaded would call gTTS once; the
second call would be a cache hit.

The code does not do this. `_fallback_gtts` deletes `response.wav`
(lines 276-279) before `speak` copies it (lines 184-187 and 252-256). So the
copy finds nothing and gTTS runs again on every repetition.

The model follows the code:

- `Speech.FallbackAudioNeverCached` and
  `Speech.RepeatWithoutModelCallsGttsTwice` prove this behaviour.
- `Speech.StaleOutputCachedUnderNewKey` proves a further consequence. If an
  earlier delete failed, a stale `response.wav` is copied into the cache
  under the key of an unrelated text.
- `IntendedSpeech` gives the described behaviour. There,
  `IntendedRepeatCallsGttsOnce` and `IntendedFallbackCachesItsAudio` hold, and
  `IntendedAgreesOutsideFallback` shows the two definitions differ only on
  the fallback path.

## Model

| member | source | states |
|---|---|---|
| Text.StripLeft | voicechat.py:167 | `lstrip()` never lengthens its argument |
| Text.StripRight | voicechat.py:167 | `rstrip()` never lengthens its argument |
| Text.Strip | voicechat.py:167 | `strip()` never lengthens its argument; `StripShape` and `StripPadded` state what it keeps |
| Text.StripLeftShape | voicechat.py:167 | `lstrip()` returns a suffix with no leading white space, and only white space was dropped |
| Text.StripRightShape | voicechat.py:167 | `rstrip()` returns a prefix with no trailing white space, and only white space was dropped |
| Text.StripShape | voicechat.py:167 | `strip()` returns a trimmed slice of its argument surrounded only by white space |
| Text.StripPadded | voicechat.py:167 | stripping white space around a trimmed core returns exactly that core |
| Text.StripTrimmed | voicechat.py:167 | a text with no surrounding white space is its own `strip()` |
| Text.StripAbsorbsPadding | voicechat.py:167 | extra white space around a text does not change its `strip()` |
| Text.StripLowerCommute | voicechat.py:167 | `s.strip().lower() == s.lower().strip()` |
| Text.Lower | voicechat.py:167 | `lower()` keeps the length |
| Text.LowerCharFacts | voicechat.py:167 | lower-casing a character twice equals once; it keeps white space white space |
| Text.LowerIdempotent | voicechat.py:167 | `s.lower().lower() == s.lower()` |
| Text.LowerAppend | voicechat.py:429 | lower-casing distributes over concatenation |
| Text.LowerKeepsSpaces | voicechat.py:167 | lower-casing preserves "all white space" and "trimmed" |
| Text.IsSubstring | voicechat.py:429 | a found substring is no longer than the text |
| Text.IsSubstringIff | voicechat.py:429 | the recursive test holds exactly when the phrase occurs at some position |
| Text.SubstringOfConcat | voicechat.py:429 | a text contains whatever was placed anywhere inside it |
| Speech.Normalize | voicechat.py:167 | `text.strip().lower()` has no surrounding white space, is already lower case, and is never longer than the text |
| Speech.CacheKey | voicechat.py:167-170 | the key is computed from a normalized text: trimmed and lower case |
| Speech.Language | voicechat.py:195-198 | "vi" exactly when the model lists it, else "en"; raises (None) exactly when the attribute cannot be searched |
| Speech.SpeakerArg | voicechat.py:201-203 | `speaker_wav` is passed exactly when a non-empty sample path is set and the model has `voice_cloning`, and it is that path |
| Speech.PrimaryCalls | voicechat.py:190-229 | no call exactly when the language lookup raises (so no success then); otherwise a first call with language and speaker, a second call with neither exactly after a `TypeError`, and success is that of the last call |
| Speech.CopyInto | voicechat.py:184-187 | the copy adds the key only when `response.wav` exists and the copy succeeds; failures change nothing |
| Speech.GttsFallback | voicechat.py:258-281 | calls gTTS in "vi" first, never touches the cache, leaves `response.wav` only when the delete failed, changes nothing when gTTS fails |
| Speech.GttsFallbackCalls | voicechat.py:265-281 | exactly one gTTS call, no primary call, and playback exactly when gTTS succeeded |
| Speech.AfterSynthesis | voicechat.py:231-245 | copy into the cache, play, delete, in that order; key cached iff the copy succeeded; `response.wav` left iff the delete failed |
| Speech.SpeakTurn | voicechat.py:160-256 | the cache only gains the key of the spoken text |
| Speech.SpeakAll | voicechat.py:160-256 | successive calls of `speak` never remove a cache entry |
| Speech.KeyIgnoresPaddingAndCase | voicechat.py:166-170 | texts differing only in surrounding white space and letter case share one cache key |
| Speech.KeyOfNormalized | voicechat.py:167 | the key of the normalized text is the key of the text |
| Speech.CacheHitOnlyPlays | voicechat.py:172-176 | on a hit the only event is playing the cached file and the disk is unchanged |
| Speech.NoModelGoesToGtts | voicechat.py:181-188 | with no model: one gTTS call, no primary call, an unconditional copy last, and the key cached iff the copy found a `response.wav` |
| Speech.PrimaryArguments | voicechat.py:192-227 | the first `tts_to_file` gets "vi" iff listed (else "en"), and `speaker_wav` iff a sample is set and cloning is supported |
| Speech.TypeErrorRetriesOnce | voicechat.py:208-229 | after a `TypeError` the second call has neither language nor speaker, and exactly two primary calls are made |
| Speech.LanguageErrorSkipsSynthesis | voicechat.py:195-250 | when the language lookup raises, `tts_to_file` is never called and gTTS is called once, first |
| Speech.PrimarySuccessOrder | voicechat.py:231-245 | after a successful synthesis the events are the calls, then copy, play, delete; the disk follows the copy and delete outcomes |
| Speech.SynthesisFailureFallsBackOnce | voicechat.py:247-256 | a failed synthesis calls gTTS once; the copy is tried and the key cached only if `response.wav` exists afterwards |
| Speech.FallbackAudioNeverCached | voicechat.py:247-279 | on the fallback path, audio gTTS saved and played is deleted before the copy, so the cache is unchanged |
| Speech.StaleOutputCachedUnderNewKey | voicechat.py:250-256 | a leftover `response.wav` is cached under the new text's key although gTTS produced nothing and nothing was played |
| Speech.SpeakAllCacheGrows | voicechat.py:160-256 | over any number of calls the cache only grows, and only by keys of texts spoken |
| Speech.RepeatWithoutModelCallsGttsTwice | voicechat.py:181-188 | with no model and working gTTS and delete, speaking a text twice calls gTTS twice |
| IntendedSpeech.IntendedFallback | voicechat.py:251-256 | the described fallback calls gTTS once and plays iff gTTS succeeded; the key is cached iff gTTS and the copy succeeded |
| IntendedSpeech.IntendedSpeakTurn | voicechat.py:160-256 | the described `speak` only adds the spoken text's key to the cache |
| IntendedSpeech.IntendedAgreesOutsideFallback | voicechat.py:160-246 | on a hit or a successful synthesis the described and the actual `speak` coincide |
| IntendedSpeech.IntendedFallbackCachesItsAudio | voicechat.py:247-256 | on the described fallback path the key is cached exactly when gTTS and the copy succeed |
| IntendedSpeech.IntendedRepeatCallsGttsOnce | voicechat.py:181-188 | as described, a repeated text with no model calls gTTS once; the second call only plays the cached file |
| Engine.Candidates | voicechat.py:76-88 | the three model names in order, cut to the first two on a Mac without GPU |
| Engine.FirstLoadable | voicechat.py:90-106 | no model kept means every candidate was tried; a kept model is what the last candidate tried loaded |
| Engine.Attempted | voicechat.py:90-102 | the loop tries at most every candidate |
| Engine.FirstLoadableSpec | voicechat.py:90-106 | no model iff every candidate fails; otherwise the model some candidate loaded, all earlier ones having failed |
| Engine.AttemptedSpec | voicechat.py:90-102 | a prefix is tried, all but the last failing; all when none loads, else ending with the kept model |
| Engine.LoadEvents | voicechat.py:90-97 | one `TTS(model_name=...)` call per name tried, in order |
| Engine.FirstLoadAt | voicechat.py:90-99 | when candidate k is the first that loads, it is kept and exactly the first k+1 were tried |
| Engine.NoneLoads | voicechat.py:90-106 | when none loads, no model is kept and every candidate was tried |
| Engine.SelectModel | voicechat.py:90-102 | the loop keeps the first loadable model and tries exactly the attempted prefix |
| Engine.VoiceEngine.constructor | voicechat.py:58-120 | the model is the first loadable candidate, or none when reporting it raised; the loads made; the sample path; the disk as found |
| Engine.VoiceEngine.RecordVoiceSample | voicechat.py:149-158 | the sample becomes `voice_sample.wav` |
| Engine.VoiceEngine.UseExistingSample | voicechat.py:394-399 | a named sample is used only if the file exists; otherwise the path is unchanged |
| Engine.VoiceEngine.FallbackGtts | voicechat.py:258-281 | the engine's disk and trace follow `GttsFallback` |
| Engine.VoiceEngine.CopyToCache | voicechat.py:184-187 | the engine's disk follows `CopyInto`, and one copy event is recorded |
| Engine.VoiceEngine.TrySynthesis | voicechat.py:190-229 | the calls made and their success are those of `PrimaryCalls` |
| Engine.VoiceEngine.FinishSynthesis | voicechat.py:231-245 | the engine's disk and trace follow `AfterSynthesis` |
| Engine.VoiceEngine.Speak | voicechat.py:160-256 | the engine's new disk and trace are exactly those of `SpeakTurn` |
| Conversation.ExitRequested | voicechat.py:429 | the exit test on the lower-cased transcript; no transcript shorter than the eight-character phrases passes it |
| Conversation.React | voicechat.py:419-458 | the loop is left only on a transcript, with the farewell; every transcript gets something spoken |
| Conversation.ReactCases | voicechat.py:419-458 | leave exactly on an exit phrase, with the farewell; reply to other transcripts; apologise on the two recognition errors; silent otherwise |
| Conversation.Converse | voicechat.py:413-458 | the loop makes at most one pass per result and speaks at most once per pass |
| Conversation.ConverseStopsAtFirstExit | voicechat.py:413-431 | the loop stops iff some transcript has an exit phrase, at the first one, with the farewell spoken last; else it consumes the whole stream |
| Conversation.Step | voicechat.py:419-458 | one pass breaks iff it is an exit, and changes the engine as one `SpeakTurn` of what it says, or not at all |
| Conversation.Pass | voicechat.py:419-458 | one pass continues the dialogue of `Converse` and the engine state of `SpeakAll` |
| Conversation.Listen | voicechat.py:413-458 | the loop's outcome is `Converse` of the stream, and the engine's state is `SpeakAll` of what it said |
| Conversation.Run | voicechat.py:410-458 | greeting then loop: the outcome is `Converse`, the engine's state is the greeting turn followed by `SpeakAll` of the replies |
| Conversation.ExitIgnoresCase | voicechat.py:429 | lower-casing the transcript first does not change the exit test |
| Conversation.ExitPhraseAnywhere | voicechat.py:429 | either phrase, in any letter case, anywhere in the transcript triggers the exit |
| Conversation.ShoutedStopEndsLoop | voicechat.py:429 | "DỪNG LẠI" in capitals triggers the exit |

## Left out

- Text.Lower: case mapping covers the capitals of ASCII, Latin-1 and Vietnamese only. Python's `str.lower()` maps every Unicode capital, and some of them to several characters.
- Speech.CacheKey: the key is the normalized text itself. The MD5 digest and file name are not modelled, so the model cannot show two texts sharing a key through a hash collision.
- Engine.VoiceEngine.constructor: model loading and describing the loaded model (lines 111-115) are inputs, `load` and `reportOk`. The exceptions they raise are not modelled beyond their effect.
- Conversation.Run: the `while True` loop is modelled over a finite stream of recognition results. Ending the stream ends the model, and no behaviour of an unbounded run is stated.
- Playback (`play_audio`, lines 41-55): the operating-system dispatch and its swallowed errors become one `Play` event.
- `time.sleep` calls, all printing, `os.makedirs` and the unused `response_cache` dictionary.
- Microphone capture and `adjust_for_ambient_noise`, including line 418, which is outside the `try` and would end the program if it raised.
- Recording in `create_voice_sample`: only the resulting path assignment (line 156) is modelled.
- `generate_gemini_response`: an input function `respond`. Its own fallbacks return strings, so it never raises. As a function it gives the same reply to the same transcript every time, which the service does not promise; no property here depends on that.
- `check_api_key`, `initialize_recognizer` and the prompts of `main` before the greeting: modelled only as the two ways the sample path is set.
- Partial files: a failed `tts_to_file` or gTTS call leaves `response.wav` as it was.
- Exceptions escaping `speak`: every library failure `speak` can meet is caught in the source, and the model assumes none escapes.
