/**
 * The body of `main`'s `while True` loop: what it does with one result of
 * speech recognition, and the loop itself over a finite stream of such
 * results. Listening, Google speech recognition and the Gemini reply are
 * inputs: `heard` is what `recognize_google` returned or raised, `respond`
 * stands for `generate_gemini_response`.
 */
module Conversation {
  import opened Text
  import opened Speech
  import opened Engine

  const StopPhrase := "d\U{1EEB}ng l\U{1EA1}i"
  const ByePhrase := "t\U{1EA1}m bi\U{1EC7}t"
  const Greeting := "Xin ch\U{E0}o! T\U{F4}i l\U{E0} tr\U{1EE3} l\U{FD} \U{1EA3}o t\U{ED}ch h\U{1EE3}p v\U{1EDB}i Gemini API. T\U{F4}i \U{111}ang l\U{1EAF}ng nghe b\U{1EA1}n \U{111}\U{E2}y."
  const Farewell := "T\U{1EA1}m bi\U{1EC7}t b\U{1EA1}n! H\U{1EB9}n g\U{1EB7}p l\U{1EA1}i."
  const NotUnderstood := "Xin l\U{1ED7}i, t\U{F4}i kh\U{F4}ng hi\U{1EC3}u b\U{1EA1}n n\U{F3}i g\U{EC}."
  const RecognizerDown := "L\U{1ED7}i k\U{1EBF}t n\U{1ED1}i d\U{1ECB}ch v\U{1EE5} nh\U{1EAD}n d\U{1EA1}ng gi\U{1ECD}ng n\U{F3}i."

  /** What one `listen` + `recognize_google` produced: a transcript or one of the errors `main` catches. */
  datatype Heard =
    | Transcript(text: string)
    | WaitTimeout      // sr.WaitTimeoutError
    | UnknownValue     // sr.UnknownValueError
    | RequestError     // sr.RequestError
    | OtherError       // any other exception

  /**
   * The exit test: either phrase anywhere in the lower-cased transcript. Both
   * phrases have eight characters, so no shorter transcript ends the loop.
   */
  predicate ExitRequested(transcript: string)
    ensures ExitRequested(transcript) ==> |transcript| >= 8
  {
    var lowered := Lower(transcript);
    IsSubstring(StopPhrase, lowered) || IsSubstring(ByePhrase, lowered)
  }

  predicate IsExit(heard: Heard) {
    heard.Transcript? && ExitRequested(heard.text)
  }

  /** What one pass of the loop body decides: leave the loop, and what to speak. */
  datatype Reaction = Reaction(stop: bool, say: Option<string>)

  function React(heard: Heard, respond: string -> string): (r: Reaction)
    ensures r.stop ==> heard.Transcript? && r.say == Some(Farewell)
    ensures heard.Transcript? ==> r.say.Some?
  {
    match heard
    case Transcript(text) =>
      if ExitRequested(text) then Reaction(true, Some(Farewell)) else Reaction(false, Some(respond(text)))
    case WaitTimeout => Reaction(false, None)
    case UnknownValue => Reaction(false, Some(NotUnderstood))
    case RequestError => Reaction(false, Some(RecognizerDown))
    case OtherError => Reaction(false, None)
  }

  /**
   * The loop leaves exactly on an exit phrase, saying goodbye; it speaks the
   * reply to any other transcript and an apology for the two recognition
   * errors it reports, and stays silent on a timeout or any other error.
   */
  lemma ReactCases(heard: Heard, respond: string -> string)
    ensures var r := React(heard, respond);
      && (r.stop <==> IsExit(heard))
      && (r.stop ==> r.say == Some(Farewell))
      && (r.say.None? <==> heard.WaitTimeout? || heard.OtherError?)
      && (heard.Transcript? && !r.stop ==> r.say == Some(respond(heard.text)))
      && (heard.UnknownValue? ==> r.say == Some(NotUnderstood))
      && (heard.RequestError? ==> r.say == Some(RecognizerDown))
  {
  }

  /** How the loop ends on a finite stream: whether it broke out, after how many passes, what it spoke. */
  datatype Dialogue = Dialogue(stopped: bool, turns: nat, said: seq<string>)

  function Converse(heard: seq<Heard>, respond: string -> string): (d: Dialogue)
    ensures d.turns <= |heard| && |d.said| <= d.turns
  {
    if heard == [] then Dialogue(false, 0, [])
    else
      var r := React(heard[0], respond);
      if r.stop then Dialogue(true, 1, [Farewell])
      else
        var rest := Converse(heard[1..], respond);
        Dialogue(rest.stopped, rest.turns + 1, Said(r) + rest.said)
  }

  /**
   * The loop ends exactly when some transcript holds an exit phrase; it then
   * ends at the first such transcript, and the last thing it speaks is the
   * farewell. Otherwise it goes through the whole stream.
   */
  lemma {:induction false} ConverseStopsAtFirstExit(heard: seq<Heard>, respond: string -> string)
    ensures var d := Converse(heard, respond);
      && (d.stopped <==> exists i :: 0 <= i < |heard| && IsExit(heard[i]))
      && (d.stopped ==> 0 < d.turns && IsExit(heard[d.turns - 1]) && d.said != [] && d.said[|d.said| - 1] == Farewell)
      && (forall i :: 0 <= i < d.turns - 1 ==> !IsExit(heard[i]))
      && (!d.stopped ==> d.turns == |heard|)
  {
    if heard != [] {
      ReactCases(heard[0], respond);
      var r := React(heard[0], respond);
      if !r.stop {
        var rest := heard[1..];
        ConverseStopsAtFirstExit(rest, respond);
        var rd := Converse(rest, respond);
        var d := Converse(heard, respond);
        assert d == Dialogue(rd.stopped, rd.turns + 1, Said(r) + rd.said);
        assert forall i :: 1 <= i < |heard| ==> heard[i] == rest[i - 1];
        if d.stopped {
          var j :| 0 <= j < |rest| && IsExit(rest[j]);
          assert IsExit(heard[j + 1]);
          assert d.said[|d.said| - 1] == rd.said[|rd.said| - 1];
        }
        if i :| 0 <= i < |heard| && IsExit(heard[i]) {
          assert IsExit(rest[i - 1]);
        }
      }
    }
  }

  /** One pass of the loop body; `stop` is the `break`. */
  method Step(engine: VoiceEngine, heard: Heard, respond: string -> string, o: Oracle) returns (stop: bool)
    modifies engine`cache, engine`tmpExists, engine`trace
    ensures var r := React(heard, respond);
      && stop == r.stop
      && (r.say.None? ==> engine.DiskState() == old(engine.DiskState()) && engine.trace == old(engine.trace))
      && (r.say.Some? ==>
            var t := SpeakTurn(engine.tts, engine.referencePath, old(engine.DiskState()), r.say.value, o);
            engine.DiskState() == t.disk && engine.trace == old(engine.trace) + t.events)
  {
    stop := false;
    match heard
    case Transcript(text) =>
      if ExitRequested(text) {
        engine.Speak(Farewell, o);
        stop := true;
      } else {
        engine.Speak(respond(text), o);
      }
    case WaitTimeout =>
    case UnknownValue =>
      engine.Speak(NotUnderstood, o);
    case RequestError =>
      engine.Speak(RecognizerDown, o);
    case OtherError =>
  }

  /**
   * `main` from the greeting on, over a finite stream of recognition results;
   * the k-th call of `speak` gets the outcomes `oracles[k]`.
   */
  method Run(engine: VoiceEngine, heard: seq<Heard>, respond: string -> string, oracles: seq<Oracle>)
    returns (ghost stopped: bool, ghost turns: nat, ghost said: seq<string>)
    requires |oracles| == |heard| + 1
    modifies engine`cache, engine`tmpExists, engine`trace
    ensures Dialogue(stopped, turns, said) == Converse(heard, respond)
    ensures var greeted := SpeakTurn(engine.tts, engine.referencePath, old(engine.DiskState()), Greeting, oracles[0]);
            var t := SpeakAll(engine.tts, engine.referencePath, greeted.disk, said, oracles[1..][..|said|]);
            engine.DiskState() == t.disk && engine.trace == old(engine.trace) + greeted.events + t.events
  {
    engine.Speak(Greeting, oracles[0]);
    stopped, turns, said := Listen(engine, heard, respond, oracles[1..]);
  }

  /** The `while True` loop of `main`, entered after the greeting was spoken; `replies[k]` serves the k-th reply. */
  method Listen(engine: VoiceEngine, heard: seq<Heard>, respond: string -> string, replies: seq<Oracle>)
    returns (ghost stopped: bool, ghost turns: nat, ghost said: seq<string>)
    requires |replies| == |heard|
    modifies engine`cache, engine`tmpExists, engine`trace
    ensures Dialogue(stopped, turns, said) == Converse(heard, respond)
    ensures var t := SpeakAll(engine.tts, engine.referencePath, old(engine.DiskState()), said, replies[..|said|]);
            engine.DiskState() == t.disk && engine.trace == old(engine.trace) + t.events
  {
    ghost var d0 := engine.DiskState();
    ghost var e0 := engine.trace;
    ghost var sofar := Turn(d0, []);
    ResumeFromStart(heard, respond);
    AppendNothing(e0, []);
    stopped, turns, said := false, 0, [];
    var i, k := 0, 0;
    var stop := false;
    while i < |heard| && !stop
      invariant 0 <= i <= |heard| && |said| <= i && k == |said|
      invariant turns == i
      invariant stop ==> Converse(heard, respond) == Dialogue(true, i, said)
      invariant !stop ==> Converse(heard, respond) == Resume(said, i, Converse(heard[i..], respond))
      invariant sofar == SpeakAll(engine.tts, engine.referencePath, d0, said, replies[..k])
      invariant engine.DiskState() == sofar.disk && engine.trace == e0 + sofar.events
    {
      stop, k, said, sofar := Pass(engine, heard, i, respond, replies, k, said, sofar, e0, d0);
      turns, i := turns + 1, i + 1;
    }
    if !stop {
      ResumeAtEnd(heard, respond, said);
    }
    stopped := stop;
  }

  lemma ResumeFromStart(heard: seq<Heard>, respond: string -> string)
    ensures Converse(heard, respond) == Resume([], 0, Converse(heard[0..], respond))
  {
    assert heard[0..] == heard;
    assert [] + Converse(heard, respond).said == Converse(heard, respond).said;
  }

  lemma ResumeAtEnd(heard: seq<Heard>, respond: string -> string, said: seq<string>)
    ensures Resume(said, |heard|, Converse(heard[|heard|..], respond)) == Dialogue(false, |heard|, said)
  {
    assert heard[|heard|..] == [];
    AppendNothing(said, []);
  }

  /**
   * Pass `i` of the loop inside `Listen`: it continues the dialogue of the
   * stream, and the engine's state stays that of speaking the greeting and
   * then every line said so far.
   */
  method Pass(engine: VoiceEngine, heard: seq<Heard>, i: nat, respond: string -> string, replies: seq<Oracle>,
              k: nat, ghost said: seq<string>, ghost sofar: Turn, ghost e0: seq<Event>, ghost d0: Disk)
    returns (stop: bool, k': nat, ghost said': seq<string>, ghost sofar': Turn)
    requires i < |heard| && |said| <= i && k == |said| && |replies| == |heard|
    requires Converse(heard, respond) == Resume(said, i, Converse(heard[i..], respond))
    requires sofar == SpeakAll(engine.tts, engine.referencePath, d0, said, replies[..k])
    requires engine.DiskState() == sofar.disk && engine.trace == e0 + sofar.events
    modifies engine`cache, engine`tmpExists, engine`trace
    ensures |said'| <= |said| + 1 && k' == |said'|
    ensures stop ==> Converse(heard, respond) == Dialogue(true, i + 1, said')
    ensures !stop ==> Converse(heard, respond) == Resume(said', i + 1, Converse(heard[i + 1..], respond))
    ensures sofar' == SpeakAll(engine.tts, engine.referencePath, d0, said', replies[..k'])
    ensures engine.DiskState() == sofar'.disk && engine.trace == e0 + sofar'.events
  {
    Advance(heard, i, respond, said);
    var r := React(heard[i], respond);
    said' := said + Said(r);
    ghost var before := engine.trace;
    stop := Step(engine, heard[i], respond, replies[k]);
    if r.say.Some? {
      ghost var last := SpeakTurn(engine.tts, engine.referencePath, sofar.disk, r.say.value, replies[k]);
      assert engine.trace == before + last.events;
      AppendAssoc(e0, sofar.events, last.events);
      SpeakAllSnoc(engine.tts, engine.referencePath, d0, said, replies, r.say.value);
      sofar' := Turn(last.disk, sofar.events + last.events);
      k' := k + 1;
    } else {
      AppendNothing(said, Said(r));
      sofar', k' := sofar, k;
    }
  }

  lemma StopSaysFarewell(heard: Heard, respond: string -> string)
    ensures React(heard, respond).stop ==> Said(React(heard, respond)) == [Farewell]
  {
  }

  /** What the rest of the loop makes of pass `i`, seen from the whole stream. */
  lemma Advance(heard: seq<Heard>, i: nat, respond: string -> string, said: seq<string>)
    requires i < |heard|
    requires Converse(heard, respond) == Resume(said, i, Converse(heard[i..], respond))
    ensures var r := React(heard[i], respond);
      && (r.stop ==> Converse(heard, respond) == Dialogue(true, i + 1, said + Said(r)))
      && (!r.stop ==> Converse(heard, respond) == Resume(said + Said(r), i + 1, Converse(heard[i + 1..], respond)))
  {
    ConverseAt(heard, i, respond);
    if React(heard[i], respond).stop {
      AdvanceStop(heard, i, respond, said);
    } else {
      AdvanceGo(heard, i, respond, said);
    }
  }

  /** Pass `i` of the loop over the rest of the stream from position `i`. */
  lemma ConverseAt(heard: seq<Heard>, i: nat, respond: string -> string)
    requires i < |heard|
    ensures var r := React(heard[i], respond);
      && (r.stop ==> Converse(heard[i..], respond) == Dialogue(true, 1, [Farewell]))
      && (!r.stop ==> Converse(heard[i..], respond) == Resume(Said(r), 1, Converse(heard[i + 1..], respond)))
  {
    var tail := heard[i..];
    assert tail[0] == heard[i];
    assert tail[1..] == heard[i + 1..];
    ConverseUnfold(tail, respond);
  }

  lemma AdvanceStop(heard: seq<Heard>, i: nat, respond: string -> string, said: seq<string>)
    requires i < |heard| && React(heard[i], respond).stop
    requires Converse(heard, respond) == Resume(said, i, Converse(heard[i..], respond))
    requires Converse(heard[i..], respond) == Dialogue(true, 1, [Farewell])
    ensures Converse(heard, respond) == Dialogue(true, i + 1, said + Said(React(heard[i], respond)))
  {
    StopSaysFarewell(heard[i], respond);
  }

  lemma AdvanceGo(heard: seq<Heard>, i: nat, respond: string -> string, said: seq<string>)
    requires i < |heard|
    requires Converse(heard, respond) == Resume(said, i, Converse(heard[i..], respond))
    requires Converse(heard[i..], respond)
      == Resume(Said(React(heard[i], respond)), 1, Converse(heard[i + 1..], respond))
    ensures Converse(heard, respond)
      == Resume(said + Said(React(heard[i], respond)), i + 1, Converse(heard[i + 1..], respond))
  {
    ResumeAssoc(said, i, Said(React(heard[i], respond)), Converse(heard[i + 1..], respond));
  }

  /** The dialogue of the whole stream, given what was said in the first `done` passes and the dialogue of the rest. */
  function Resume(said: seq<string>, done: nat, rest: Dialogue): Dialogue {
    Dialogue(rest.stopped, done + rest.turns, said + rest.said)
  }

  /** What one pass adds to the spoken lines. */
  function Said(r: Reaction): (lines: seq<string>)
    ensures |lines| <= 1
    ensures r.say.Some? ==> lines == [r.say.value]
    ensures r.say.None? ==> lines == []
  {
    if r.say.Some? then [r.say.value] else []
  }

  /** One more pass of the loop, from the point of view of the rest of the stream. */
  lemma ConverseUnfold(tail: seq<Heard>, respond: string -> string)
    requires tail != []
    ensures var r := React(tail[0], respond);
      && (r.stop ==> Converse(tail, respond) == Dialogue(true, 1, [Farewell]))
      && (!r.stop ==> Converse(tail, respond) == Resume(Said(r), 1, Converse(tail[1..], respond)))
  {
  }

  lemma ResumeAssoc(said: seq<string>, i: nat, more: seq<string>, rest: Dialogue)
    ensures Resume(said, i, Resume(more, 1, rest)) == Resume(said + more, i + 1, rest)
  {
    assert said + (more + rest.said) == (said + more) + rest.said;
  }

  lemma SpeakAllSnoc(tts: Option<ModelCaps>, referencePath: Option<string>, disk: Disk,
                     texts: seq<string>, oracles: seq<Oracle>, text: string)
    requires |texts| < |oracles|
    ensures var before := SpeakAll(tts, referencePath, disk, texts, oracles[..|texts|]);
      var last := SpeakTurn(tts, referencePath, before.disk, text, oracles[|texts|]);
      SpeakAll(tts, referencePath, disk, texts + [text], oracles[..|texts| + 1])
        == Turn(last.disk, before.events + last.events)
  {
    var all := texts + [text];
    assert all[..|texts|] == texts;
    assert oracles[..|texts| + 1][..|texts|] == oracles[..|texts|];
  }

  /** The exit test ignores letter case: lower-casing the transcript first changes nothing. */
  lemma ExitIgnoresCase(transcript: string)
    ensures ExitRequested(Lower(transcript)) == ExitRequested(transcript)
  {
    LowerIdempotent(transcript);
  }

  /** Either exit phrase, in any letter case, anywhere in the transcript ends the loop. */
  lemma ExitPhraseAnywhere(pre: string, phrase: string, post: string)
    requires Lower(phrase) == StopPhrase || Lower(phrase) == ByePhrase
    ensures ExitRequested(pre + phrase + post)
  {
    LowerAppend(pre + phrase, post);
    LowerAppend(pre, phrase);
    SubstringOfConcat(Lower(pre), Lower(phrase), Lower(post));
  }

  /** "DỪNG LẠI" shouted in capitals is the stop phrase. */
  lemma ShoutedStopEndsLoop(pre: string, post: string)
    ensures ExitRequested(pre + "D\U{1EEA}NG L\U{1EA0}I" + post)
  {
    var shouted := "D\U{1EEA}NG L\U{1EA0}I";
    assert Lower(shouted) == StopPhrase;
    ExitPhraseAnywhere(pre, shouted, post);
  }
}
