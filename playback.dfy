/** Reference model of the playback hook (`useAudio`): the state it keeps, the
    events that drive it, and what each transition does to that state.

    The browser is abstract. It decides which callback fires next (an `Event`),
    and the hook's calls into it (load, play, pause, rewind, cancel, speak) are
    recorded in `calls`, in order. `new Audio(...)` and
    `new SpeechSynthesisUtterance(...)` are modelled as handles carrying a fresh
    identity drawn from `nextId`. */
module Playback {
  import opened Optional

  /** An audio element created by the hook: its identity, the source it loads and
      the text its fallback would speak (both captured by its callbacks). */
  datatype Clip = Clip(id: nat, src: string, fallbackText: string)

  /** A speech utterance created by the hook: its identity and the text it speaks. */
  datatype Utterance = Utterance(id: nat, text: string)

  /** A call the hook makes into the browser. */
  datatype BrowserCall =
    | Load(clip: Clip)            // `new Audio(src)` followed by `load()`
    | StartAudio(clip: Clip)      // `audio.play()`
    | Pause(clip: Clip)           // `audio.pause()`
    | Rewind(clip: Clip)          // `audio.currentTime = 0`
    | CancelSpeech                // `speechSynthesis.cancel()`
    | Speak(utterance: Utterance) // `speechSynthesis.speak(utterance)`

  /** The hook's state: the `isPlaying` flag, the audio handle (`audioRef`), the
      speech handle (`utteranceRef`), the identity allocator and the call log. */
  datatype PlayerState = PlayerState(
    isPlaying: bool,
    audio: Option<Clip>,
    utterance: Option<Utterance>,
    nextId: nat,
    calls: seq<BrowserCall>)

  /** What can happen next: a caller invokes `play` or `stop`, or the browser
      fires one of the callbacks the hook installed on a clip or an utterance. */
  datatype Event =
    | Play(word: string, audioFile: Option<string>)
    | Stop
    | CanPlayThrough(clip: Clip)
    | PlayRejected(clip: Clip)
    | Ended(clip: Clip)
    | LoadError(clip: Clip)
    | SpeechStart(utterance: Utterance)
    | SpeechEnd(utterance: Utterance)
    | SpeechError(utterance: Utterance)

  /** The state the hook starts in: nothing playing, no handles, nothing called. */
  function Initial(): (r: PlayerState)
  {
    PlayerState(false, None, None, 0, [])
  }

  /** The observable fields, without the allocator and the call log. */
  function Fields(s: PlayerState): (f: (bool, Option<Clip>, Option<Utterance>))
  {
    (s.isPlaying, s.audio, s.utterance)
  }

  /** The source `play` loads: the given file when it is truthy, otherwise the
      default path derived from the word. */
  function ResolveSource(word: string, audioFile: Option<string>): (src: string)
    ensures IsTruthy(audioFile) ==> src == audioFile.value
    ensures !IsTruthy(audioFile) ==> src == "/audio/" + word + ".mp3"
    ensures src != ""
  {
    if IsTruthy(audioFile) then audioFile.value else "/audio/" + word + ".mp3"
  }

  /** `stop`: pause and rewind the current clip and drop it; when speech synthesis
      exists, cancel it and drop the utterance; clear the flag. */
  function AfterStop(speech: bool, s: PlayerState): (r: PlayerState)
    ensures !r.isPlaying && r.audio == None
    ensures r.utterance == (if speech then None else s.utterance)
    ensures r.nextId == s.nextId && s.calls <= r.calls
  {
    var halt := if s.audio.Some? then [Pause(s.audio.value), Rewind(s.audio.value)] else [];
    var cancel := if speech then [CancelSpeech] else [];
    s.(isPlaying := false,
       audio := None,
       utterance := if speech then None else s.utterance,
       calls := s.calls + halt + cancel)
  }

  /** `playWithTTS(text)`: without speech synthesis only the flag is cleared;
      otherwise a fresh utterance of `text` becomes the speech handle and is spoken. */
  function AfterSpeak(speech: bool, s: PlayerState, text: string): (r: PlayerState)
    ensures r.audio == s.audio
    ensures !speech ==> !r.isPlaying && r.utterance == s.utterance && r.calls == s.calls
    ensures speech ==> && r.isPlaying == s.isPlaying
                       && r.utterance == Some(Utterance(s.nextId, text))
                       && r.nextId > s.nextId
                       && r.calls == s.calls + [Speak(r.utterance.value)]
  {
    if !speech then
      s.(isPlaying := false)
    else
      var u := Utterance(s.nextId, text);
      s.(utterance := Some(u), nextId := s.nextId + 1, calls := s.calls + [Speak(u)])
  }

  /** `playWithAudio(src, fallbackText)`: a fresh clip of `src` becomes the audio
      handle and is loaded; the previous handle is overwritten, not paused. */
  function AfterLoad(s: PlayerState, src: string, fallbackText: string): (r: PlayerState)
    ensures r.audio == Some(Clip(s.nextId, src, fallbackText)) && r.nextId > s.nextId
    ensures r.isPlaying == s.isPlaying && r.utterance == s.utterance
    ensures r.calls == s.calls + [Load(r.audio.value)]
  {
    var c := Clip(s.nextId, src, fallbackText);
    s.(audio := Some(c), nextId := s.nextId + 1, calls := s.calls + [Load(c)])
  }

  /** `play(word, audioFile)`: stop first only if the flag is set, then load the
      resolved source with `word` as the fallback text. */
  function AfterPlay(speech: bool, s: PlayerState, word: string, audioFile: Option<string>): (r: PlayerState)
    ensures !r.isPlaying
    ensures r.audio == Some(Clip(s.nextId, ResolveSource(word, audioFile), word))
    ensures r.utterance == (if s.isPlaying && speech then None else s.utterance)
    ensures s.calls <= r.calls && r.calls != [] && r.calls[|r.calls| - 1] == Load(r.audio.value)
  {
    var s' := if s.isPlaying then AfterStop(speech, s) else s;
    AfterLoad(s', ResolveSource(word, audioFile), word)
  }

  /** One transition of the hook. The callbacks installed on a clip or an
      utterance act on the hook's current state whichever handle they belong to. */
  function Step(speech: bool, s: PlayerState, e: Event): (r: PlayerState)
    ensures s.calls <= r.calls && s.nextId <= r.nextId
    ensures e.Play? ==> r.audio.Some? && r.audio.value.fallbackText == e.word
  {
    match e
    case Play(word, audioFile) => AfterPlay(speech, s, word, audioFile)
    case Stop => AfterStop(speech, s)
    case CanPlayThrough(c) => s.(isPlaying := true, calls := s.calls + [StartAudio(c)])
    case PlayRejected(c) => AfterSpeak(speech, s, c.fallbackText)
    case Ended(_) => s.(isPlaying := false, audio := None)
    case LoadError(c) => AfterSpeak(speech, s, c.fallbackText)
    case SpeechStart(_) => s.(isPlaying := true)
    case SpeechEnd(_) => s.(isPlaying := false)
    case SpeechError(_) => s.(isPlaying := false)
  }

  /** The state after the events `es`, delivered one at a time. */
  function Run(speech: bool, s: PlayerState, es: seq<Event>): (r: PlayerState)
    decreases |es|
  {
    if es == [] then s else Run(speech, Step(speech, s, es[0]), es[1..])
  }

  // ---------------------------------------------------------------------------
  // stop

  /** After `stop` nothing is playing and no clip is held; the utterance is
      dropped exactly when speech synthesis exists; the current clip, if any, is
      paused and rewound, and speech is cancelled when it exists. */
  lemma StopHalts(speech: bool, s: PlayerState)
    ensures var r := AfterStop(speech, s);
      && !r.isPlaying && r.audio == None
      && r.utterance == (if speech then None else s.utterance)
      && r.nextId == s.nextId
      && s.calls <= r.calls
      && (s.audio.Some? ==> r.calls[|s.calls|..][..2] == [Pause(s.audio.value), Rewind(s.audio.value)])
      && (forall i :: |s.calls| <= i < |r.calls| && r.calls[i].Pause? ==> s.audio == Some(r.calls[i].clip))
      && (speech <==> CancelSpeech in r.calls[|s.calls|..])
  {
    var r := AfterStop(speech, s);
    var halt := if s.audio.Some? then [Pause(s.audio.value), Rewind(s.audio.value)] else [];
    assert r.calls[|s.calls|..] == halt + (if speech then [CancelSpeech] else []);
  }

  /** `stop` is idempotent: a second call leaves the fields as one call did and
      only repeats the cancellation of speech; it never pauses anything again. */
  lemma StopIdempotent(speech: bool, s: PlayerState)
    ensures var once := AfterStop(speech, s);
      var twice := AfterStop(speech, once);
      && Fields(twice) == Fields(once)
      && twice.nextId == once.nextId
      && twice.calls == once.calls + (if speech then [CancelSpeech] else [])
  {
  }

  // ---------------------------------------------------------------------------
  // play and its fallback

  /** `play` stops the old session exactly when the flag is set. When it is not,
      the old clip stays unpaused: the only new call is the load of a fresh clip,
      which carries the resolved source and the word as its fallback text. */
  lemma PlayStopsOnlyWhenPlaying(speech: bool, s: PlayerState, word: string, audioFile: Option<string>)
    ensures var r := Step(speech, s, Play(word, audioFile));
      var c := Clip(s.nextId, ResolveSource(word, audioFile), word);
      && r.audio == Some(c)
      && (s.isPlaying ==> r.calls == AfterStop(speech, s).calls + [Load(c)] && !r.isPlaying)
      && (!s.isPlaying ==> r.calls == s.calls + [Load(c)] && Fields(r) == (false, Some(c), s.utterance))
  {
  }

  /** Both a load error and a rejected `audio.play()` fall back to speech of the
      clip's fallback text; the failed clip stays the audio handle. */
  lemma FailureFallsBackToSpeech(speech: bool, s: PlayerState, c: Clip)
    ensures Step(speech, s, LoadError(c)) == Step(speech, s, PlayRejected(c))
    ensures var r := Step(speech, s, LoadError(c));
      && r.audio == s.audio
      && (speech ==> r.utterance == Some(Utterance(s.nextId, c.fallbackText))
                     && r.calls == s.calls + [Speak(Utterance(s.nextId, c.fallbackText))]
                     && r.isPlaying == s.isPlaying)
  {
  }

  /** Without speech synthesis `playWithTTS` clears the flag and changes nothing
      else: no utterance is created and nothing is spoken. */
  lemma SpeakWithoutSynthesis(s: PlayerState, text: string)
    ensures AfterSpeak(false, s, text) == s.(isPlaying := false)
  {
  }

  /** On `ended` the audio handle is cleared; on a load error or a rejected play
      it is kept. */
  lemma AudioHandleClearedOnlyOnEnd(speech: bool, s: PlayerState, c: Clip)
    ensures Step(speech, s, Ended(c)).audio == None
    ensures Step(speech, s, LoadError(c)).audio == s.audio
    ensures Step(speech, s, PlayRejected(c)).audio == s.audio
  {
  }

  // ---------------------------------------------------------------------------
  // the flag

  /** Events after which the flag is set whatever it was before. */
  predicate Raises(e: Event)
  {
    e.CanPlayThrough? || e.SpeechStart?
  }

  /** Events that may clear the flag: `ended`, the end or error of an utterance,
      `stop`, `play` (which calls `stop` while playing) and, when synthesis is
      missing, the two audio failures. */
  predicate MayLower(speech: bool, e: Event)
  {
    e.Ended? || e.SpeechEnd? || e.SpeechError? || e.Stop? || e.Play?
    || (!speech && (e.LoadError? || e.PlayRejected?))
  }

  /** The flag goes from false to true only on `canplaythrough` or an utterance's
      start, and from true to false only on the events of `MayLower`. */
  lemma FlagChanges(speech: bool, s: PlayerState, e: Event)
    ensures !s.isPlaying && Step(speech, s, e).isPlaying ==> Raises(e)
    ensures s.isPlaying && !Step(speech, s, e).isPlaying ==> MayLower(speech, e)
    ensures Raises(e) ==> Step(speech, s, e).isPlaying
  {
  }

  /** A run with no raising event never sets the flag. */
  lemma {:induction false} QuietRunStaysQuiet(speech: bool, s: PlayerState, es: seq<Event>)
    requires !s.isPlaying
    requires forall i :: 0 <= i < |es| ==> !Raises(es[i])
    ensures !Run(speech, s, es).isPlaying
    decreases |es|
  {
    if es != [] {
      QuietRunStaysQuiet(speech, Step(speech, s, es[0]), es[1..]);
    }
  }

  /** A run with no event that may lower the flag never clears it. */
  lemma {:induction false} BusyRunStaysBusy(speech: bool, s: PlayerState, es: seq<Event>)
    requires s.isPlaying
    requires forall i :: 0 <= i < |es| ==> !MayLower(speech, es[i])
    ensures Run(speech, s, es).isPlaying
    decreases |es|
  {
    if es != [] {
      BusyRunStaysBusy(speech, Step(speech, s, es[0]), es[1..]);
    }
  }

  // ---------------------------------------------------------------------------
  // without speech synthesis

  /** No call in `calls[from..]` is a `speak`. */
  predicate NothingSpokenSince(calls: seq<BrowserCall>, from: nat)
  {
    forall i :: from <= i < |calls| ==> !calls[i].Speak?
  }

  /** Without speech synthesis, whatever the browser does, the speech handle is
      never set and nothing is ever spoken. */
  lemma {:induction false} WithoutSynthesisNothingIsSpoken(s: PlayerState, es: seq<Event>)
    ensures var r := Run(false, s, es);
      && r.utterance == s.utterance
      && s.calls <= r.calls
      && NothingSpokenSince(r.calls, |s.calls|)
    decreases |es|
  {
    if es != [] {
      var s' := Step(false, s, es[0]);
      assert s.calls <= s'.calls && NothingSpokenSince(s'.calls, |s.calls|);
      WithoutSynthesisNothingIsSpoken(s', es[1..]);
    }
  }

  // ---------------------------------------------------------------------------
  // what is spoken

  /** The browser fires a callback only on a clip the hook has loaded, or an
      utterance it has spoken. */
  predicate Fires(s: PlayerState, e: Event)
  {
    match e
    case CanPlayThrough(c) => Load(c) in s.calls
    case PlayRejected(c) => StartAudio(c) in s.calls
    case Ended(c) => StartAudio(c) in s.calls
    case LoadError(c) => Load(c) in s.calls
    case SpeechStart(u) => Speak(u) in s.calls
    case SpeechEnd(u) => Speak(u) in s.calls
    case SpeechError(u) => Speak(u) in s.calls
    case _ => true
  }

  /** Every event of `es` can fire at the point it is delivered. */
  predicate Feasible(speech: bool, s: PlayerState, es: seq<Event>)
    decreases |es|
  {
    es == [] || (Fires(s, es[0]) && Feasible(speech, Step(speech, s, es[0]), es[1..]))
  }

  /** The words passed to `play` in `es`. */
  function PlayedWords(es: seq<Event>): set<string>
  {
    set i | 0 <= i < |es| && es[i].Play? :: es[i].word
  }

  /** Every clip loaded and every utterance spoken so far carries a text of `words`. */
  predicate TextsFrom(calls: seq<BrowserCall>, words: set<string>)
  {
    && (forall i :: 0 <= i < |calls| && calls[i].Load? ==> calls[i].clip.fallbackText in words)
    && (forall i :: 0 <= i < |calls| && calls[i].StartAudio? ==> calls[i].clip.fallbackText in words)
    && (forall i :: 0 <= i < |calls| && calls[i].Speak? ==> calls[i].utterance.text in words)
  }

  lemma StepKeepsTexts(speech: bool, s: PlayerState, e: Event, words: set<string>)
    requires TextsFrom(s.calls, words)
    requires Fires(s, e)
    requires e.Play? ==> e.word in words
    ensures TextsFrom(Step(speech, s, e).calls, words)
  {
  }

  lemma {:induction false} RunKeepsTexts(speech: bool, s: PlayerState, es: seq<Event>, words: set<string>)
    requires TextsFrom(s.calls, words)
    requires Feasible(speech, s, es)
    requires PlayedWords(es) <= words
    ensures TextsFrom(Run(speech, s, es).calls, words)
    decreases |es|
  {
    if es != [] {
      assert es[0].Play? ==> es[0].word in PlayedWords(es);
      StepKeepsTexts(speech, s, es[0], words);
      assert PlayedWords(es[1..]) <= PlayedWords(es) by {
        forall w | w in PlayedWords(es[1..]) ensures w in PlayedWords(es) {
          var i :| 0 <= i < |es[1..]| && es[1..][i].Play? && es[1..][i].word == w;
          assert es[i + 1].Play? && es[i + 1].word == w;
        }
      }
      RunKeepsTexts(speech, Step(speech, s, es[0]), es[1..], words);
    }
  }

  /** Whatever the browser does, every utterance the hook ever speaks says a word
      that was passed to `play`: the fallback never speaks anything else. */
  lemma SpokenTextsArePlayedWords(speech: bool, es: seq<Event>)
    requires Feasible(speech, Initial(), es)
    ensures var calls := Run(speech, Initial(), es).calls;
      forall i :: 0 <= i < |calls| && calls[i].Speak? ==> calls[i].utterance.text in PlayedWords(es)
  {
    RunKeepsTexts(speech, Initial(), es, PlayedWords(es));
  }

  /** Delivering `es` and then `more` is delivering `es + more`. */
  lemma {:induction false} RunAppend(speech: bool, s: PlayerState, es: seq<Event>, more: seq<Event>)
    ensures Run(speech, s, es + more) == Run(speech, Run(speech, s, es), more)
    ensures Feasible(speech, s, es + more)
      <==> Feasible(speech, s, es) && Feasible(speech, Run(speech, s, es), more)
    decreases |es|
  {
    if es == [] {
      assert es + more == more;
    } else {
      assert (es + more)[0] == es[0];
      assert (es + more)[1..] == es[1..] + more;
      RunAppend(speech, Step(speech, s, es[0]), es[1..], more);
    }
  }

  // ---------------------------------------------------------------------------
  // a session started while another clip is still loading

  /** The first clip of the overlap scenario: a tap on 渴. */
  function FirstClip(): Clip { Clip(0, "/audio/渴.mp3", "渴") }

  /** The second clip of the overlap scenario: a tap on 熱 while 渴 still loads. */
  function SecondClip(): Clip { Clip(1, "/audio/熱.mp3", "熱") }

  /** Tap 渴, tap 熱 before 渴 has loaded, then both clips become playable. */
  function OverlapEvents(): seq<Event>
  {
    [ Play("渴", Some("/audio/渴.mp3")), Play("熱", Some("/audio/熱.mp3")),
      CanPlayThrough(FirstClip()), CanPlayThrough(SecondClip()) ]
  }

  /** `play` stops nothing while the previous clip is still loading (the flag is
      not yet set). If both clips then become playable, both are started and
      neither is paused: two audio sessions overlap. */
  lemma LoadingClipIsNotStopped()
    ensures Feasible(true, Initial(), OverlapEvents())
    ensures Run(true, Initial(), OverlapEvents())
      == PlayerState(true, Some(SecondClip()), None, 2,
                     [Load(FirstClip()), Load(SecondClip()),
                      StartAudio(FirstClip()), StartAudio(SecondClip())])
  {
  }

  /** Continuing the overlap: the first clip's `ended` callback clears the audio
      handle although it now holds the second clip, so a later `stop` no longer
      reaches the second clip. It is started and never paused. */
  lemma StaleEndLeavesClipUnstopped()
    ensures var es := OverlapEvents() + [Ended(FirstClip()), Stop];
      var r := Run(true, Initial(), es);
      && Feasible(true, Initial(), es)
      && StartAudio(SecondClip()) in r.calls
      && Pause(SecondClip()) !in r.calls
      && !r.isPlaying && r.audio == None
  {
    LoadingClipIsNotStopped();
    var s4 := Run(true, Initial(), OverlapEvents());
    var tail := [Ended(FirstClip()), Stop];
    RunAppend(true, Initial(), OverlapEvents(), tail);
    var s5 := Step(true, s4, tail[0]);
    var s6 := Step(true, s5, tail[1]);
    assert tail[1..][1..] == [];
    assert Run(true, s4, tail) == s6;
    assert Feasible(true, s4, tail);
    assert s6.calls == s4.calls + [CancelSpeech];
  }
}
