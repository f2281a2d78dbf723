/**
 * `CustomVoiceTTS`: the engine picks its model once at start-up and then
 * serves `speak(text)` calls against the `tts_cache/` directory and the
 * temporary `response.wav`. The machine it runs on is reduced to two inputs,
 * `isMac` and `useGpu`; whether `TTS(model_name=...)` loads a model is the
 * input `load`.
 */
module Engine {
  import opened Speech

  /** The candidate models, from the lightest to the multilingual one that clones voices. */
  const Models: seq<string> := [
    "tts_models/en/ljspeech/fast_pitch",
    "tts_models/en/ljspeech/tacotron2-DDC",
    "tts_models/multilingual/multi-dataset/your_tts"
  ]

  /** The candidates tried: a Mac without a GPU keeps only the first two. */
  function Candidates(isMac: bool, useGpu: bool): (names: seq<string>)
    ensures names <= Models
    ensures |names| == if isMac && !useGpu then 2 else 3
    ensures isMac && !useGpu ==> Models[2] !in names
  {
    if isMac && !useGpu then Models[..2] else Models
  }

  /** The model the loading loop keeps: the first candidate that loads, if any. */
  function FirstLoadable(names: seq<string>, load: string -> Option<ModelCaps>): (m: Option<ModelCaps>)
    ensures m.None? ==> Attempted(names, load) == names
    ensures m.Some? ==> var tried := Attempted(names, load); tried != [] && m == load(tried[|tried| - 1])
  {
    if names == [] then None
    else if load(names[0]).Some? then load(names[0])
    else FirstLoadable(names[1..], load)
  }

  /** The candidates the loading loop tries: all of them up to and including the first that loads. */
  function Attempted(names: seq<string>, load: string -> Option<ModelCaps>): (tried: seq<string>)
    ensures |tried| <= |names|
  {
    if names == [] then []
    else if load(names[0]).Some? then [names[0]]
    else [names[0]] + Attempted(names[1..], load)
  }

  /**
   * No model is kept exactly when every candidate fails to load; a kept model
   * is what some candidate loaded, and every candidate before it failed.
   */
  lemma {:induction false} FirstLoadableSpec(names: seq<string>, load: string -> Option<ModelCaps>)
    ensures var m := FirstLoadable(names, load);
      && (m.None? <==> forall i :: 0 <= i < |names| ==> load(names[i]).None?)
      && (m.Some? ==> exists i :: 0 <= i < |names| && m == load(names[i])
                                  && forall j :: 0 <= j < i ==> load(names[j]).None?)
  {
    if names != [] && load(names[0]).None? {
      var rest := names[1..];
      FirstLoadableSpec(rest, load);
      assert forall i :: 1 <= i < |names| ==> names[i] == rest[i - 1];
      if FirstLoadable(rest, load).Some? {
        var i :| 0 <= i < |rest| && FirstLoadable(rest, load) == load(rest[i])
                 && forall j :: 0 <= j < i ==> load(rest[j]).None?;
        assert load(names[i + 1]) == load(rest[i]);
        forall j | 0 <= j < i + 1
          ensures load(names[j]).None?
        {
          if j > 0 {
            assert names[j] == rest[j - 1];
          }
        }
      }
    } else if names != [] {
      assert FirstLoadable(names, load) == load(names[0]);
    }
  }

  /**
   * The loop tries a prefix of the candidates, all but the last of them
   * failing; it tries them all when none loads, and otherwise ends with the
   * one it keeps.
   */
  lemma {:induction false} AttemptedSpec(names: seq<string>, load: string -> Option<ModelCaps>)
    ensures var tried := Attempted(names, load);
      && tried <= names
      && (forall i :: 0 <= i < |tried| - 1 ==> load(tried[i]).None?)
      && (FirstLoadable(names, load).None? ==> tried == names)
      && (FirstLoadable(names, load).Some? ==> tried != [] && FirstLoadable(names, load) == load(tried[|tried| - 1]))
  {
    if names != [] && load(names[0]).None? {
      var rest := names[1..];
      AttemptedSpec(rest, load);
      var tried := Attempted(names, load);
      var t := Attempted(rest, load);
      assert tried == [names[0]] + t;
      forall i | 0 <= i < |tried| - 1
        ensures load(tried[i]).None?
      {
        if i > 0 {
          assert tried[i] == t[i - 1];
        }
      }
      assert names == [names[0]] + rest;
    }
  }

  function LoadEvents(names: seq<string>): (events: seq<Event>)
    ensures |events| == |names|
    ensures forall i :: 0 <= i < |names| ==> events[i] == Load(names[i])
  {
    seq(|names|, i requires 0 <= i < |names| => Load(names[i]))
  }

  /** When the k-th candidate is the first that loads, the loop keeps it and has tried exactly the first k + 1. */
  lemma {:induction false} FirstLoadAt(names: seq<string>, load: string -> Option<ModelCaps>, k: nat)
    requires k < |names| && load(names[k]).Some?
    requires forall j :: 0 <= j < k ==> load(names[j]).None?
    ensures FirstLoadable(names, load) == load(names[k])
    ensures Attempted(names, load) == names[..k + 1]
  {
    if k > 0 {
      assert load(names[0]).None?;
      forall j | 0 <= j < k - 1
        ensures load(names[1..][j]).None?
      {
        assert names[1..][j] == names[j + 1];
      }
      FirstLoadAt(names[1..], load, k - 1);
      assert names[1..][..k] == names[1..k + 1];
      assert names[..k + 1] == [names[0]] + names[1..k + 1];
    }
  }

  /** When no candidate loads, the loop tries them all and keeps none. */
  lemma {:induction false} NoneLoads(names: seq<string>, load: string -> Option<ModelCaps>)
    requires forall j :: 0 <= j < |names| ==> load(names[j]).None?
    ensures FirstLoadable(names, load).None?
    ensures Attempted(names, load) == names
  {
    if names != [] {
      NoneLoads(names[1..], load);
    }
  }

  /** The loading loop of `CustomVoiceTTS.__init__`: try each name in order, stop at the first that loads. */
  method SelectModel(candidates: seq<string>, load: string -> Option<ModelCaps>)
    returns (tts: Option<ModelCaps>, tried: seq<string>)
    ensures tts == FirstLoadable(candidates, load)
    ensures tried == Attempted(candidates, load)
  {
    tts, tried := None, [];
    var i := 0;
    while i < |candidates|
      invariant 0 <= i <= |candidates|
      invariant tts.None?
      invariant tried == candidates[..i]
      invariant forall j :: 0 <= j < i ==> load(candidates[j]).None?
    {
      var name := candidates[i];
      assert candidates[..i + 1] == candidates[..i] + [name];
      tried := tried + [name];
      tts := load(name);
      if tts.Some? {
        FirstLoadAt(candidates, load, i);
        return;
      }
      i := i + 1;
    }
    assert tried == candidates;
    NoneLoads(candidates, load);
  }

  class VoiceEngine {
    var tts: Option<ModelCaps>
    var referencePath: Option<string>
    var cache: set<Key>
    var tmpExists: bool
    /** The external calls made so far, oldest first. */
    ghost var trace: seq<Event>

    ghost function DiskState(): Disk
      reads this
    {
      Disk(cache, tmpExists)
    }

    /**
     * `__init__`: pick the model; `reportOk` is false when printing the loaded
     * model's name and languages raises, which the outer handler answers by
     * dropping the model. `disk` is what earlier runs left in `tts_cache/` and
     * `response.wav`.
     */
    constructor (isMac: bool, useGpu: bool, load: string -> Option<ModelCaps>, reportOk: bool,
                 referencePath: Option<string>, disk: Disk)
      ensures tts == if reportOk then FirstLoadable(Candidates(isMac, useGpu), load) else None
      ensures trace == LoadEvents(Attempted(Candidates(isMac, useGpu), load))
      ensures this.referencePath == referencePath
      ensures DiskState() == disk
    {
      var selected, tried := SelectModel(Candidates(isMac, useGpu), load);
      tts := if reportOk then selected else None;
      this.referencePath := referencePath;
      cache, tmpExists := disk.cache, disk.tmpExists;
      trace := LoadEvents(tried);
    }

    /** `create_voice_sample`: the recording is saved as `voice_sample.wav`, which becomes the voice sample. */
    method RecordVoiceSample() returns (path: string)
      modifies this`referencePath
      ensures path == "voice_sample.wav" && referencePath == Some(path)
    {
      path := "voice_sample.wav";
      referencePath := Some(path);
    }

    /** `main` loads a voice sample the user named, if that file exists. */
    method UseExistingSample(path: string, fileExists: bool)
      modifies this`referencePath
      ensures referencePath == if fileExists then Some(path) else old(referencePath)
    {
      if fileExists {
        referencePath := Some(path);
      }
    }

    /** `_fallback_gtts(text, "response.wav")`. */
    method FallbackGtts(o: Oracle)
      modifies this`tmpExists, this`trace
      ensures var t := GttsFallback(old(DiskState()), o);
              DiskState() == t.disk && trace == old(trace) + t.events
    {
      trace := trace + [GttsCall(GttsLanguage)];
      if o.gttsOk {
        tmpExists := true;
        trace := trace + [Play(TempOutput), RemoveTemp];
        if o.removeOk {
          tmpExists := false;
        }
      }
    }

    /** `shutil.copy("response.wav", cache_file)` inside a handler that swallows its failure. */
    method CopyToCache(key: Key, copyOk: bool)
      modifies this`cache, this`trace
      ensures DiskState() == CopyInto(old(DiskState()), key, copyOk)
      ensures trace == old(trace) + [CacheCopy(key)]
    {
      trace := trace + [CacheCopy(key)];
      if tmpExists && copyOk {
        cache := cache + {key};
      }
    }

    /**
     * The `tts_to_file` calls of `speak`: language and `speaker_wav` first, one
     * retry with neither after a TypeError. `synthesized` tells whether one of
     * them wrote `response.wav`.
     */
    method TrySynthesis(caps: ModelCaps, o: Oracle) returns (synthesized: bool)
      modifies this`trace
      ensures synthesized == PrimaryCalls(caps, referencePath, o).1
      ensures trace == old(trace) + PrimaryCalls(caps, referencePath, o).0
    {
      synthesized := false;
      var lang := Language(caps.languages);
      if lang.Some? {
        trace := trace + [PrimaryCall(lang, SpeakerArg(referencePath, caps))];
        if o.first == RaisesTypeError {
          trace := trace + [PrimaryCall(None, None)];
          synthesized := o.retry == Succeeds;
        } else {
          synthesized := o.first == Succeeds;
        }
      }
    }

    /** After a successful synthesis: copy into the cache, play, delete `response.wav`. */
    method FinishSynthesis(key: Key, o: Oracle)
      modifies this`cache, this`tmpExists, this`trace
      ensures var t := AfterSynthesis(old(DiskState()), key, o);
              DiskState() == t.disk && trace == old(trace) + t.events
    {
      tmpExists := true;
      CopyToCache(key, o.copyOk);
      trace := trace + [Play(TempOutput), RemoveTemp];
      if o.removeOk {
        tmpExists := false;
      }
    }

    /** `speak(text)`; `o` gives the outcome of each library call it makes. */
    method Speak(text: string, o: Oracle)
      modifies this`cache, this`tmpExists, this`trace
      ensures var t := SpeakTurn(tts, referencePath, old(DiskState()), text, o);
              DiskState() == t.disk && trace == old(trace) + t.events
    {
      ghost var d0, t0 := DiskState(), trace;
      var key := CacheKey(text);
      if key in cache {
        trace := trace + [Play(CachedAudio(key))];
        return;
      }
      if tts.None? {
        FallbackGtts(o);
        ghost var fb := GttsFallback(d0, o);
        CopyToCache(key, o.copyOk);
        AppendAssoc(t0, fb.events, [CacheCopy(key)]);
        return;
      }
      var synthesized := TrySynthesis(tts.value, o);
      ghost var calls := PrimaryCalls(tts.value, referencePath, o).0;
      if synthesized {
        FinishSynthesis(key, o);
        ghost var after := AfterSynthesis(d0, key, o);
        AppendAssoc(t0, calls, after.events);
        assert SpeakTurn(tts, referencePath, d0, text, o) == Turn(after.disk, calls + after.events);
      } else {
        FallbackGtts(o);
        ghost var fb := GttsFallback(d0, o);
        AppendAssoc(t0, calls, fb.events);
        if tmpExists {
          CopyToCache(key, o.copyOk);
          AppendAssoc(t0, calls + fb.events, [CacheCopy(key)]);
          assert SpeakTurn(tts, referencePath, d0, text, o)
              == Turn(CopyInto(fb.disk, key, o.copyOk), calls + fb.events + [CacheCopy(key)]);
        } else {
          assert SpeakTurn(tts, referencePath, d0, text, o) == Turn(fb.disk, calls + fb.events);
        }
      }
    }
  }
}
