/** The playback hook as the object the board holds: the `isPlaying` flag and the
    two mutable handles (`audioRef`, `utteranceRef`) are fields, and `stop`,
    `playWithTTS`, `playWithAudio`, `play` and every callback they install are
    methods that update them in place. Each method is proved to perform the
    transition the reference model in module `Playback` gives it. */
module UseAudio {
  import opened Optional
  import opened Playback

  class AudioHook {
    /** Whether the page offers `window.speechSynthesis`. */
    const speechAvailable: bool

    var isPlaying: bool
    var audio: Option<Clip>
    var utterance: Option<Utterance>
    /** Identity of the next handle `new` creates. */
    var nextId: nat
    /** Calls made into the browser so far, oldest first. */
    var calls: seq<BrowserCall>

    /** The fields as a value of the reference model. */
    function Snapshot(): (r: PlayerState)
      reads this
    {
      PlayerState(isPlaying, audio, utterance, nextId, calls)
    }

    constructor (speechAvailable: bool)
      ensures this.speechAvailable == speechAvailable
      ensures Snapshot() == Initial()
    {
      this.speechAvailable := speechAvailable;
      isPlaying := false;
      audio := None;
      utterance := None;
      nextId := 0;
      calls := [];
    }

    /** `stop`: pause and rewind the current clip and drop it; cancel speech and
        drop the utterance when synthesis exists; clear the flag. */
    method Stop()
      modifies this
      ensures !isPlaying && audio == None
      ensures utterance == if speechAvailable then None else old(utterance)
      ensures Snapshot() == AfterStop(speechAvailable, old(Snapshot()))
    {
      if audio.Some? {
        calls := calls + [Pause(audio.value)];
        calls := calls + [Rewind(audio.value)];
        audio := None;
      }
      if speechAvailable {
        calls := calls + [CancelSpeech];
        utterance := None;
      }
      isPlaying := false;
    }

    /** `playWithTTS(text)`: without synthesis, clear the flag and stop there;
        otherwise create an utterance of `text`, keep it and speak it. */
    method PlayWithTTS(text: string)
      modifies this
      ensures !speechAvailable ==> Snapshot() == old(Snapshot()).(isPlaying := false)
      ensures speechAvailable ==> utterance == Some(Utterance(old(nextId), text))
                                  && isPlaying == old(isPlaying) && audio == old(audio)
      ensures Snapshot() == AfterSpeak(speechAvailable, old(Snapshot()), text)
    {
      if !speechAvailable {
        isPlaying := false;
        return;
      }
      var u := Utterance(nextId, text);
      nextId := nextId + 1;
      utterance := Some(u);
      calls := calls + [Speak(u)];
    }

    /** `playWithAudio(src, fallbackText)`: create a clip of `src` whose callbacks
        fall back to `fallbackText`, make it the audio handle and load it. */
    method PlayWithAudio(src: string, fallbackText: string)
      modifies this
      ensures audio == Some(Clip(old(nextId), src, fallbackText))
      ensures isPlaying == old(isPlaying) && utterance == old(utterance)
      ensures Snapshot() == AfterLoad(old(Snapshot()), src, fallbackText)
    {
      var c := Clip(nextId, src, fallbackText);
      nextId := nextId + 1;
      audio := Some(c);
      calls := calls + [Load(c)];
    }

    /** `play(word, audioFile)`: stop first if the flag is set, then play the
        given file, or `/audio/<word>.mp3` when it is null or empty, with `word`
        as the text of the speech fallback. */
    method Play(word: string, audioFile: Option<string>)
      modifies this
      ensures audio == Some(Clip(old(nextId), ResolveSource(word, audioFile), word))
      ensures isPlaying == false
      ensures Snapshot() == AfterPlay(speechAvailable, old(Snapshot()), word, audioFile)
    {
      if isPlaying {
        Stop();
      }
      var src := ResolveSource(word, audioFile);
      PlayWithAudio(src, word);
    }

    /** The clip's `canplaythrough` callback: set the flag and start the clip. */
    method OnCanPlayThrough(c: Clip)
      modifies this
      ensures isPlaying
      ensures Snapshot() == Step(speechAvailable, old(Snapshot()), CanPlayThrough(c))
    {
      isPlaying := true;
      calls := calls + [StartAudio(c)];
    }

    /** The rejection of the clip's `play()`: fall back to speaking its text. */
    method OnPlayRejected(c: Clip)
      modifies this
      ensures audio == old(audio)
      ensures Snapshot() == Step(speechAvailable, old(Snapshot()), PlayRejected(c))
    {
      PlayWithTTS(c.fallbackText);
    }

    /** The clip's `ended` callback: clear the flag and the audio handle. */
    method OnEnded(c: Clip)
      modifies this
      ensures !isPlaying && audio == None
      ensures Snapshot() == Step(speechAvailable, old(Snapshot()), Ended(c))
    {
      isPlaying := false;
      audio := None;
    }

    /** The clip's `error` callback: fall back to speaking its text. */
    method OnLoadError(c: Clip)
      modifies this
      ensures audio == old(audio)
      ensures Snapshot() == Step(speechAvailable, old(Snapshot()), LoadError(c))
    {
      PlayWithTTS(c.fallbackText);
    }

    /** The utterance's `onstart`: set the flag. */
    method OnSpeechStart(u: Utterance)
      modifies this
      ensures Snapshot() == old(Snapshot()).(isPlaying := true)
      ensures Snapshot() == Step(speechAvailable, old(Snapshot()), SpeechStart(u))
    {
      isPlaying := true;
    }

    /** The utterance's `onend`: clear the flag. */
    method OnSpeechEnd(u: Utterance)
      modifies this
      ensures Snapshot() == old(Snapshot()).(isPlaying := false)
      ensures Snapshot() == Step(speechAvailable, old(Snapshot()), SpeechEnd(u))
    {
      isPlaying := false;
    }

    /** The utterance's `onerror`: clear the flag. */
    method OnSpeechError(u: Utterance)
      modifies this
      ensures Snapshot() == old(Snapshot()).(isPlaying := false)
      ensures Snapshot() == Step(speechAvailable, old(Snapshot()), SpeechError(u))
    {
      isPlaying := false;
    }

    /** Deliver one event: a caller's `play` or `stop`, or the callback the
        browser fires. */
    method Deliver(e: Event)
      modifies this
      ensures Snapshot() == Step(speechAvailable, old(Snapshot()), e)
    {
      match e
      case Play(word, audioFile) => Play(word, audioFile);
      case Stop => Stop();
      case CanPlayThrough(c) => OnCanPlayThrough(c);
      case PlayRejected(c) => OnPlayRejected(c);
      case Ended(c) => OnEnded(c);
      case LoadError(c) => OnLoadError(c);
      case SpeechStart(u) => OnSpeechStart(u);
      case SpeechEnd(u) => OnSpeechEnd(u);
      case SpeechError(u) => OnSpeechError(u);
    }
  }
}
