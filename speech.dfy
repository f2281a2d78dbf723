/**
 * What one call of `CustomVoiceTTS.speak(text)` does, as a function of the
 * engine's model, its voice sample, the state of the disk and the outcomes
 * of the library calls it makes. The outcomes (does `tts_to_file` succeed,
 * raise `TypeError` or raise something else; does gTTS succeed; does the
 * copy or the delete succeed) are inputs, and what `speak` does is an event
 * trace plus the new disk.
 */
module Speech {
  import opened Text

  datatype Option<T> = None | Some(value: T)

  /** The `languages` attribute of a loaded model, as `getattr(tts, 'languages', [])` sees it. */
  datatype Languages =
    | NoAttribute               // getattr falls back to []
    | Listed(names: seq<string>)
    | Unsearchable              // a value such as None: `"vi" in ...` raises TypeError

  /** What `speak` asks of a loaded model: its languages and whether it has `voice_cloning`. */
  datatype ModelCaps = ModelCaps(languages: Languages, supportsCloning: bool)

  /** The cache key: the MD5 digest is represented by the normalized text it is computed from. */
  datatype Key = Key(normalized: string)

  /** `tts_cache/cached_<hash>.wav` or the temporary `response.wav`. */
  datatype AudioFile = CachedAudio(key: Key) | TempOutput

  /** The external calls the engine makes, in order: loading a model, and what `speak` calls. */
  datatype Event =
    | Load(model: string)                                     // TTS(model_name=...)
    | PrimaryCall(language: Option<string>, speaker: Option<string>)  // tts.tts_to_file(...)
    | GttsCall(lang: string)                                  // gTTS(...).save(response.wav)
    | Play(file: AudioFile)                                   // play_audio(...)
    | CacheCopy(key: Key)                                     // shutil.copy(response.wav, cache file)
    | RemoveTemp                                              // os.remove(response.wav)

  datatype Outcome = Succeeds | RaisesTypeError | RaisesOther

  /** The outcomes of the library calls of one `speak`; each call is made at most once per call of `speak`. */
  datatype Oracle = Oracle(first: Outcome, retry: Outcome, gttsOk: bool, copyOk: bool, removeOk: bool)

  /** The part of the file system `speak` reads and writes. */
  datatype Disk = Disk(cache: set<Key>, tmpExists: bool)

  datatype Turn = Turn(disk: Disk, events: seq<Event>)

  const TempPath := "response.wav"
  const GttsLanguage := "vi"

  /** `text.strip().lower()`. */
  /** `text.strip().lower()`: no surrounding white space, already lower case, never longer. */
  function Normalize(text: string): (n: string)
    ensures Trimmed(n) && Lower(n) == n && |n| <= |text|
  {
    StripShape(text);
    LowerKeepsSpaces(Strip(text));
    LowerIdempotent(Strip(text));
    Lower(Strip(text))
  }

  /** The cache key of a text; what it is computed from is already normalized. */
  function CacheKey(text: string): (k: Key)
    ensures Trimmed(k.normalized) && Lower(k.normalized) == k.normalized
  {
    Key(Normalize(text))
  }

  /** The language passed to `tts_to_file`, or None when looking it up raises. */
  function Language(langs: Languages): (lang: Option<string>)
    ensures lang.None? <==> langs.Unsearchable?
    ensures lang == Some("vi") <==> langs.Listed? && "vi" in langs.names
    ensures lang.Some? && lang != Some("vi") ==> lang == Some("en")
  {
    match langs
    case NoAttribute => Some("en")
    case Listed(names) => if "vi" in names then Some("vi") else Some("en")
    case Unsearchable => None
  }

  /**
   * The `speaker_wav` argument: the reference path, when one is set (a non-empty
   * string is truthy) and the model has `voice_cloning`.
   */
  function SpeakerArg(referencePath: Option<string>, caps: ModelCaps): (speaker: Option<string>)
    ensures speaker.Some? <==> referencePath.Some? && referencePath.value != "" && caps.supportsCloning
    ensures speaker.Some? ==> speaker == referencePath
  {
    if referencePath.Some? && referencePath.value != "" && caps.supportsCloning then referencePath else None
  }

  /**
   * The `tts_to_file` calls made for one `speak`, and whether one of them wrote
   * `response.wav`. A TypeError on the first call leads to one retry with only
   * `text` and `file_path`; a TypeError while looking up the language ends the
   * attempt before any call.
   */
  function PrimaryCalls(caps: ModelCaps, referencePath: Option<string>, o: Oracle): (r: (seq<Event>, bool))
    ensures |r.0| <= 2
    ensures r.0 == [] <==> Language(caps.languages).None?
    ensures r.1 ==> r.0 != []
    ensures r.0 != [] ==> r.0[0] == PrimaryCall(Language(caps.languages), SpeakerArg(referencePath, caps))
    ensures |r.0| == 2 <==> Language(caps.languages).Some? && o.first == RaisesTypeError
    ensures |r.0| == 2 ==> r.0[1] == PrimaryCall(None, None) && (r.1 <==> o.retry == Succeeds)
    ensures |r.0| == 1 ==> (r.1 <==> o.first == Succeeds)
  {
    match Language(caps.languages)
    case None => ([], false)
    case Some(lang) =>
      var first := PrimaryCall(Some(lang), SpeakerArg(referencePath, caps));
      if o.first == RaisesTypeError then ([first, PrimaryCall(None, None)], o.retry == Succeeds)
      else ([first], o.first == Succeeds)
  }

  /** `shutil.copy(response.wav, cache file)`: succeeds only when the temporary file is there. */
  function CopyInto(disk: Disk, key: Key, copyOk: bool): (d: Disk)
    ensures d.tmpExists == disk.tmpExists
    ensures d.cache == if disk.tmpExists && copyOk then disk.cache + {key} else disk.cache
  {
    if disk.tmpExists && copyOk then Disk(disk.cache + {key}, true) else disk
  }

  /**
   * `_fallback_gtts(text, "response.wav")`: gTTS in Vietnamese saves the file,
   * which is played and then deleted; every error is swallowed. It never
   * touches the cache.
   */
  function GttsFallback(disk: Disk, o: Oracle): (t: Turn)
    ensures t.disk.cache == disk.cache
    ensures t.events != [] && t.events[0] == GttsCall(GttsLanguage)
    ensures o.gttsOk ==> t.disk.tmpExists == !o.removeOk
    ensures !o.gttsOk ==> t.disk == disk
  {
    if o.gttsOk then
      Turn(Disk(disk.cache, !o.removeOk), [GttsCall(GttsLanguage), Play(TempOutput), RemoveTemp])
    else
      Turn(disk, [GttsCall(GttsLanguage)])
  }

  /** The fallback calls gTTS exactly once, never the primary engine, and plays only what gTTS saved. */
  lemma GttsFallbackCalls(disk: Disk, o: Oracle)
    ensures var t := GttsFallback(disk, o);
      && CountGtts(t.events) == 1 && CountPrimary(t.events) == 0
      && (Play(TempOutput) in t.events <==> o.gttsOk)
  {
    if o.gttsOk {
      CountsOfTriple(GttsCall(GttsLanguage), Play(TempOutput), RemoveTemp);
    } else {
      assert [GttsCall(GttsLanguage)][1..] == [];
    }
  }

  /**
   * What follows a successful `tts_to_file`: `response.wav` is on disk, is
   * copied into the cache, played and deleted.
   */
  function AfterSynthesis(disk: Disk, key: Key, o: Oracle): (t: Turn)
    ensures t.events == [CacheCopy(key), Play(TempOutput), RemoveTemp]
    ensures t.disk.cache == if o.copyOk then disk.cache + {key} else disk.cache
    ensures t.disk.tmpExists == !o.removeOk
  {
    var copied := CopyInto(Disk(disk.cache, true), key, o.copyOk);
    Turn(Disk(copied.cache, !o.removeOk), [CacheCopy(key), Play(TempOutput), RemoveTemp])
  }

  /** One call of `speak(text)`, as the source does it. */
  function SpeakTurn(tts: Option<ModelCaps>, referencePath: Option<string>, disk: Disk, text: string, o: Oracle): (t: Turn)
    ensures disk.cache <= t.disk.cache <= disk.cache + {CacheKey(text)}
  {
    var key := CacheKey(text);
    if key in disk.cache then
      Turn(disk, [Play(CachedAudio(key))])
    else if tts.None? then
      var fb := GttsFallback(disk, o);
      Turn(CopyInto(fb.disk, key, o.copyOk), fb.events + [CacheCopy(key)])
    else
      var (calls, synthesized) := PrimaryCalls(tts.value, referencePath, o);
      if synthesized then
        var after := AfterSynthesis(disk, key, o);
        Turn(after.disk, calls + after.events)
      else
        var fb := GttsFallback(disk, o);
        if fb.disk.tmpExists then
          Turn(CopyInto(fb.disk, key, o.copyOk), calls + fb.events + [CacheCopy(key)])
        else
          Turn(fb.disk, calls + fb.events)
  }

  /** Successive calls of `speak`, the i-th text with the i-th oracle; events concatenate. */
  function SpeakAll(tts: Option<ModelCaps>, referencePath: Option<string>, disk: Disk,
                    texts: seq<string>, oracles: seq<Oracle>): (t: Turn)
    requires |oracles| == |texts|
    ensures disk.cache <= t.disk.cache
    decreases |texts|
  {
    if texts == [] then Turn(disk, [])
    else
      var n := |texts| - 1;
      var before := SpeakAll(tts, referencePath, disk, texts[..n], oracles[..n]);
      var last := SpeakTurn(tts, referencePath, before.disk, texts[n], oracles[n]);
      Turn(last.disk, before.events + last.events)
  }

  function CountGtts(events: seq<Event>): (n: nat)
    ensures n <= |events|
  {
    if events == [] then 0 else (if events[0].GttsCall? then 1 else 0) + CountGtts(events[1..])
  }

  function CountPrimary(events: seq<Event>): (n: nat)
    ensures n <= |events|
  {
    if events == [] then 0 else (if events[0].PrimaryCall? then 1 else 0) + CountPrimary(events[1..])
  }

  lemma CountsOfTriple(a: Event, b: Event, c: Event)
    ensures CountGtts([a, b, c]) == (if a.GttsCall? then 1 else 0) + (if b.GttsCall? then 1 else 0) + (if c.GttsCall? then 1 else 0)
    ensures CountPrimary([a, b, c]) == (if a.PrimaryCall? then 1 else 0) + (if b.PrimaryCall? then 1 else 0) + (if c.PrimaryCall? then 1 else 0)
  {
    assert [c][1..] == [];
    assert CountGtts([c]) == (if c.GttsCall? then 1 else 0);
    assert CountPrimary([c]) == (if c.PrimaryCall? then 1 else 0);
    assert [b, c][1..] == [c];
    assert CountGtts([b, c]) == (if b.GttsCall? then 1 else 0) + CountGtts([c]);
    assert CountPrimary([b, c]) == (if b.PrimaryCall? then 1 else 0) + CountPrimary([c]);
    assert [a, b, c][1..] == [b, c];
  }

  lemma {:induction false} CountsAppend(a: seq<Event>, b: seq<Event>)
    ensures CountGtts(a + b) == CountGtts(a) + CountGtts(b)
    ensures CountPrimary(a + b) == CountPrimary(a) + CountPrimary(b)
  {
    if a != [] {
      assert (a + b)[1..] == a[1..] + b;
      CountsAppend(a[1..], b);
    } else {
      assert a + b == b;
    }
  }

  /** Texts that differ only in surrounding white space and letter case share one cache file. */
  lemma KeyIgnoresPaddingAndCase(pre: string, text: string, post: string, other: string)
    requires AllSpace(pre) && AllSpace(post)
    requires Lower(text) == Lower(other)
    ensures CacheKey(pre + text + post) == CacheKey(other)
  {
    StripAbsorbsPadding(pre, text, post);
    StripLowerCommute(text);
    StripLowerCommute(other);
  }

  /** Normalizing is idempotent: the key of a text is the key of its normalized form. */
  lemma KeyOfNormalized(text: string)
    ensures CacheKey(Normalize(text)) == CacheKey(text)
  {
    var c := Strip(text);
    StripShape(text);
    assert Normalize(text) == Lower(c);
    StripLowerCommute(c);
    StripTrimmed(c);
    assert Strip(Lower(c)) == Lower(c);
    LowerIdempotent(c);
    assert Normalize(Normalize(text)) == Lower(Lower(c));
  }

  /** A cache hit plays the cached file once and does nothing else. */
  lemma CacheHitOnlyPlays(tts: Option<ModelCaps>, referencePath: Option<string>, disk: Disk, text: string, o: Oracle)
    requires CacheKey(text) in disk.cache
    ensures SpeakTurn(tts, referencePath, disk, text, o) == Turn(disk, [Play(CachedAudio(CacheKey(text)))])
  {
  }

  /**
   * Without a model, a miss goes straight to gTTS in Vietnamese and then tries
   * the cache copy unconditionally; the key is cached only if some
   * `response.wav` is still on disk at that point.
   */
  lemma NoModelGoesToGtts(referencePath: Option<string>, disk: Disk, text: string, o: Oracle)
    requires CacheKey(text) !in disk.cache
    ensures var t := SpeakTurn(None, referencePath, disk, text, o);
      && CountPrimary(t.events) == 0 && CountGtts(t.events) == 1
      && t.events[0] == GttsCall("vi")
      && t.events[|t.events| - 1] == CacheCopy(CacheKey(text))
      && (CacheKey(text) in t.disk.cache <==>
            o.copyOk && (if o.gttsOk then !o.removeOk else disk.tmpExists))
  {
    var fb := GttsFallback(disk, o);
    GttsFallbackCalls(disk, o);
    CountsAppend(fb.events, [CacheCopy(CacheKey(text))]);
  }

  /**
   * With a model, the first `tts_to_file` call gets language "vi" exactly when
   * the model lists "vi" (else "en"), and `speaker_wav` exactly when a voice
   * sample is set and the model can clone.
   */
  lemma PrimaryArguments(caps: ModelCaps, referencePath: Option<string>, disk: Disk, text: string, o: Oracle)
    requires CacheKey(text) !in disk.cache
    requires !caps.languages.Unsearchable?
    ensures var t := SpeakTurn(Some(caps), referencePath, disk, text, o);
      exists lang, speaker :: t.events[0] == PrimaryCall(Some(lang), speaker)
        && (lang == "vi" <==> caps.languages.Listed? && "vi" in caps.languages.names)
        && (lang == "vi" || lang == "en")
        && (speaker.Some? <==> referencePath.Some? && referencePath.value != "" && caps.supportsCloning)
        && (speaker.Some? ==> speaker == referencePath)
  {
    var lang := Language(caps.languages).value;
    var speaker := SpeakerArg(referencePath, caps);
    assert SpeakTurn(Some(caps), referencePath, disk, text, o).events[0] == PrimaryCall(Some(lang), speaker);
  }

  /** A TypeError leads to exactly one retry, without `language` and `speaker_wav`. */
  lemma TypeErrorRetriesOnce(caps: ModelCaps, referencePath: Option<string>, disk: Disk, text: string, o: Oracle)
    requires CacheKey(text) !in disk.cache
    requires !caps.languages.Unsearchable? && o.first == RaisesTypeError
    ensures var t := SpeakTurn(Some(caps), referencePath, disk, text, o);
      && t.events[1] == PrimaryCall(None, None)
      && CountPrimary(t.events) == 2
  {
    var (calls, ok) := PrimaryCalls(caps, referencePath, o);
    var t := SpeakTurn(Some(caps), referencePath, disk, text, o);
    var key := CacheKey(text);
    assert CountPrimary(calls) == 2 by {
      assert calls[1..][1..] == [];
    }
    if ok {
      var tail := [CacheCopy(key), Play(TempOutput), RemoveTemp];
      CountsOfTriple(CacheCopy(key), Play(TempOutput), RemoveTemp);
      CountsAppend(calls, tail);
    } else {
      var fb := GttsFallback(disk, o);
      GttsFallbackCalls(disk, o);
      CountsAppend(calls, fb.events);
      if fb.disk.tmpExists {
        assert [CacheCopy(key)][1..] == [];
        CountsAppend(calls + fb.events, [CacheCopy(key)]);
      }
    }
  }

  /**
   * When looking up the model's languages raises, `tts_to_file` is never
   * called: `speak` goes straight to the gTTS fallback.
   */
  lemma LanguageErrorSkipsSynthesis(caps: ModelCaps, referencePath: Option<string>, disk: Disk, text: string, o: Oracle)
    requires CacheKey(text) !in disk.cache
    requires caps.languages.Unsearchable?
    ensures var t := SpeakTurn(Some(caps), referencePath, disk, text, o);
      && CountPrimary(t.events) == 0 && CountGtts(t.events) == 1
      && t.events[0] == GttsCall(GttsLanguage)
  {
    var fb := GttsFallback(disk, o);
    GttsFallbackCalls(disk, o);
    var key := CacheKey(text);
    if fb.disk.tmpExists {
      assert [CacheCopy(key)][1..] == [];
      CountsAppend([] + fb.events, [CacheCopy(key)]);
    } else {
      assert [] + fb.events == fb.events;
    }
  }

  /**
   * Successful synthesis: copy into the cache, play `response.wav`, delete it.
   * A failed copy does not stop playback and a failed delete leaves the file.
   */
  lemma PrimarySuccessOrder(caps: ModelCaps, referencePath: Option<string>, disk: Disk, text: string, o: Oracle)
    requires CacheKey(text) !in disk.cache
    requires PrimaryCalls(caps, referencePath, o).1
    ensures var t := SpeakTurn(Some(caps), referencePath, disk, text, o);
      && t.events == PrimaryCalls(caps, referencePath, o).0
                     + [CacheCopy(CacheKey(text)), Play(TempOutput), RemoveTemp]
      && t.disk == Disk(if o.copyOk then disk.cache + {CacheKey(text)} else disk.cache, !o.removeOk)
  {
  }

  /**
   * Failed synthesis (any error but a TypeError, or a failed retry, or an
   * unsearchable language list) ends in exactly one gTTS fallback; the cache
   * copy is tried only if `response.wav` exists afterwards.
   */
  lemma SynthesisFailureFallsBackOnce(caps: ModelCaps, referencePath: Option<string>, disk: Disk, text: string, o: Oracle)
    requires CacheKey(text) !in disk.cache
    requires !PrimaryCalls(caps, referencePath, o).1
    ensures var t := SpeakTurn(Some(caps), referencePath, disk, text, o);
      && CountGtts(t.events) == 1
      && (CacheCopy(CacheKey(text)) in t.events <==> (if o.gttsOk then !o.removeOk else disk.tmpExists))
      && (CacheKey(text) in t.disk.cache <==>
            o.copyOk && (if o.gttsOk then !o.removeOk else disk.tmpExists))
  {
    var (calls, ok) := PrimaryCalls(caps, referencePath, o);
    var fb := GttsFallback(disk, o);
    var t := SpeakTurn(Some(caps), referencePath, disk, text, o);
    GttsFallbackCalls(disk, o);
    CountsAppend(calls, fb.events);
    if fb.disk.tmpExists {
      CountsAppend(calls + fb.events, [CacheCopy(CacheKey(text))]);
    } else {
      assert CacheCopy(CacheKey(text)) !in calls;
      assert CacheCopy(CacheKey(text)) !in fb.events;
    }
  }

  /** The fallback path taken by `speak`: no model, or the model's synthesis failed. */
  predicate FallsBack(tts: Option<ModelCaps>, referencePath: Option<string>, o: Oracle) {
    tts.None? || !PrimaryCalls(tts.value, referencePath, o).1
  }

  /**
   * The fallback deletes `response.wav` before `speak` copies it: audio that
   * gTTS made and played is never cached unless that delete failed.
   */
  lemma FallbackAudioNeverCached(tts: Option<ModelCaps>, referencePath: Option<string>, disk: Disk, text: string, o: Oracle)
    requires CacheKey(text) !in disk.cache
    requires FallsBack(tts, referencePath, o) && o.gttsOk && o.removeOk
    ensures var t := SpeakTurn(tts, referencePath, disk, text, o);
      && Play(TempOutput) in t.events
      && t.disk == Disk(disk.cache, false)
  {
    var t := SpeakTurn(tts, referencePath, disk, text, o);
    var fb := GttsFallback(disk, o);
    if tts.None? {
      assert t.events == fb.events + [CacheCopy(CacheKey(text))];
    } else {
      assert t.events == PrimaryCalls(tts.value, referencePath, o).0 + fb.events;
    }
    GttsFallbackCalls(disk, o);
  }

  /**
   * A `response.wav` left behind by an earlier failed delete is copied into the
   * cache under the key of a text for which gTTS produced nothing and nothing
   * was played.
   */
  lemma StaleOutputCachedUnderNewKey(tts: Option<ModelCaps>, referencePath: Option<string>, disk: Disk, text: string, o: Oracle)
    requires CacheKey(text) !in disk.cache && disk.tmpExists
    requires FallsBack(tts, referencePath, o) && !o.gttsOk && o.copyOk
    ensures var t := SpeakTurn(tts, referencePath, disk, text, o);
      && CacheKey(text) in t.disk.cache
      && Play(TempOutput) !in t.events
  {
  }

  /** Over any number of calls the cache only grows, and only by keys of the texts spoken. */
  lemma {:induction false} SpeakAllCacheGrows(tts: Option<ModelCaps>, referencePath: Option<string>, disk: Disk,
                                              texts: seq<string>, oracles: seq<Oracle>)
    requires |oracles| == |texts|
    ensures var d := SpeakAll(tts, referencePath, disk, texts, oracles).disk;
      && disk.cache <= d.cache
      && forall k :: k in d.cache && k !in disk.cache ==> exists i :: 0 <= i < |texts| && k == CacheKey(texts[i])
    decreases |texts|
  {
    if texts != [] {
      var n := |texts| - 1;
      SpeakAllCacheGrows(tts, referencePath, disk, texts[..n], oracles[..n]);
      var before := SpeakAll(tts, referencePath, disk, texts[..n], oracles[..n]);
      var d := SpeakAll(tts, referencePath, disk, texts, oracles).disk;
      forall k | k in d.cache && k !in disk.cache
        ensures exists i :: 0 <= i < |texts| && k == CacheKey(texts[i])
      {
        if k in before.disk.cache {
          var i :| 0 <= i < n && k == CacheKey(texts[..n][i]);
          assert k == CacheKey(texts[i]);
        } else {
          assert k == CacheKey(texts[n]);
        }
      }
    }
  }

  /**
   * Without a model and with gTTS working, speaking the same text twice calls
   * gTTS twice: the first call's audio did not reach the cache.
   */
  lemma RepeatWithoutModelCallsGttsTwice(referencePath: Option<string>, disk: Disk, text: string, o1: Oracle, o2: Oracle)
    requires CacheKey(text) !in disk.cache
    requires o1.gttsOk && o1.removeOk && o2.gttsOk
    ensures var t := SpeakAll(None, referencePath, disk, [text, text], [o1, o2]);
      CountGtts(t.events) == 2 && CountPrimary(t.events) == 0
  {
    var t1 := SpeakTurn(None, referencePath, disk, text, o1);
    var t2 := SpeakTurn(None, referencePath, t1.disk, text, o2);
    assert [text, text][..1] == [text] && [o1, o2][..1] == [o1];
    assert SpeakAll(None, referencePath, disk, [text], [o1]).events == t1.events by {
      assert [text][..0] == [] && [o1][..0] == [];
    }
    NoModelGoesToGtts(referencePath, disk, text, o1);
    NoModelGoesToGtts(referencePath, t1.disk, text, o2);
    CountsAppend(t1.events, t2.events);
  }

  lemma AppendNothing<T>(a: seq<T>, b: seq<T>)
    requires b == []
    ensures a + b == a
  {
  }

  lemma AppendAssoc<T>(a: seq<T>, b: seq<T>, c: seq<T>)
    ensures a + b + c == a + (b + c)
  {
  }
}
