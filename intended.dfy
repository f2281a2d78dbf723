/**
 * `speak` as its own comments describe the fallback path ("save to the cache
 * if it succeeded"): the gTTS audio is copied into the cache before the
 * temporary file is deleted, and nothing is copied when gTTS produced nothing.
 * Everything else is `Speech.SpeakTurn` unchanged.
 */
module IntendedSpeech {
  import opened Speech

  /** The gTTS fallback with the cache copy placed between saving and deleting. */
  function IntendedFallback(disk: Disk, key: Key, o: Oracle): (t: Turn)
    ensures CountGtts(t.events) == 1 && CountPrimary(t.events) == 0
    ensures Play(TempOutput) in t.events <==> o.gttsOk
    ensures t.disk.cache == if o.gttsOk && o.copyOk then disk.cache + {key} else disk.cache
  {
    if o.gttsOk then
      var after := AfterSynthesis(disk, key, o);
      CountsOfTriple(CacheCopy(key), Play(TempOutput), RemoveTemp);
      assert [GttsCall(GttsLanguage)][1..] == [];
      CountsAppend([GttsCall(GttsLanguage)], after.events);
      Turn(after.disk, [GttsCall(GttsLanguage)] + after.events)
    else
      assert [GttsCall(GttsLanguage)][1..] == [];
      Turn(disk, [GttsCall(GttsLanguage)])
  }

  function IntendedSpeakTurn(tts: Option<ModelCaps>, referencePath: Option<string>, disk: Disk, text: string, o: Oracle): (t: Turn)
    ensures disk.cache <= t.disk.cache <= disk.cache + {CacheKey(text)}
  {
    var key := CacheKey(text);
    if key in disk.cache then
      Turn(disk, [Play(CachedAudio(key))])
    else if tts.None? then
      IntendedFallback(disk, key, o)
    else
      var (calls, synthesized) := PrimaryCalls(tts.value, referencePath, o);
      if synthesized then
        var after := AfterSynthesis(disk, key, o);
        Turn(after.disk, calls + after.events)
      else
        var fb := IntendedFallback(disk, key, o);
        Turn(fb.disk, calls + fb.events)
  }

  /** Outside the fallback path the correction changes nothing. */
  lemma IntendedAgreesOutsideFallback(tts: Option<ModelCaps>, referencePath: Option<string>, disk: Disk, text: string, o: Oracle)
    requires CacheKey(text) in disk.cache || !FallsBack(tts, referencePath, o)
    ensures IntendedSpeakTurn(tts, referencePath, disk, text, o) == SpeakTurn(tts, referencePath, disk, text, o)
  {
  }

  /**
   * On the fallback path, gTTS audio that was saved and copied is in the cache,
   * and nothing enters the cache when gTTS produced nothing.
   */
  lemma IntendedFallbackCachesItsAudio(tts: Option<ModelCaps>, referencePath: Option<string>, disk: Disk, text: string, o: Oracle)
    requires CacheKey(text) !in disk.cache && FallsBack(tts, referencePath, o)
    ensures var t := IntendedSpeakTurn(tts, referencePath, disk, text, o);
      (CacheKey(text) in t.disk.cache <==> o.gttsOk && o.copyOk) && CountGtts(t.events) == 1
  {
    if tts.Some? {
      var (calls, _) := PrimaryCalls(tts.value, referencePath, o);
      CountsAppend(calls, IntendedFallback(disk, CacheKey(text), o).events);
    }
  }

  /**
   * Without a model and with gTTS and the copy working, speaking the same text
   * twice calls gTTS once: the second call is a cache hit.
   */
  lemma IntendedRepeatCallsGttsOnce(referencePath: Option<string>, disk: Disk, text: string, o1: Oracle, o2: Oracle)
    requires CacheKey(text) !in disk.cache
    requires o1.gttsOk && o1.copyOk
    ensures var t1 := IntendedSpeakTurn(None, referencePath, disk, text, o1);
      var t2 := IntendedSpeakTurn(None, referencePath, t1.disk, text, o2);
      && t2.events == [Play(CachedAudio(CacheKey(text)))]
      && CountGtts(t1.events + t2.events) == 1
  {
    var t1 := IntendedSpeakTurn(None, referencePath, disk, text, o1);
    var t2 := IntendedSpeakTurn(None, referencePath, t1.disk, text, o2);
    assert [Play(CachedAudio(CacheKey(text)))][1..] == [];
    CountsAppend(t1.events, t2.events);
  }
}
