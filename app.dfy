/** The board's root component: which category tab is active, how a tap on a
    phrase button becomes a call to `play`, and the stop control. */
module Board {
  import opened Optional
  import opened Playback
  import opened DefaultPhrases
  import opened UseAudio

  /** The path a phrase button hands to `play`: `/audio/<file>` for a truthy file
      name, `null` otherwise. */
  function ClickPath(audioFile: Option<string>): (path: Option<string>)
    ensures path.Some? <==> IsTruthy(audioFile)
    ensures path.Some? ==> path.value == "/audio/" + audioFile.value && IsTruthy(path)
  {
    if IsTruthy(audioFile) then Some("/audio/" + audioFile.value) else None
  }

  /** End to end, a phrase with file `f` plays `/audio/<f>`, and a phrase without
      one plays `/audio/<word>.mp3`. */
  lemma ClickResolvesTo(word: string, audioFile: Option<string>)
    ensures ResolveSource(word, ClickPath(audioFile))
      == if IsTruthy(audioFile) then "/audio/" + audioFile.value else "/audio/" + word + ".mp3"
  {
  }

  /** For every built-in phrase the explicit path and the default path coincide:
      both are `/audio/<text>.mp3`. */
  lemma BuiltInPhrasePlaysOwnName(i: nat, k: nat)
    requires i < |DefaultCategories()| && k < |DefaultCategories()[i].phrases|
    ensures var p := DefaultCategories()[i].phrases[k];
      && ResolveSource(p.text, ClickPath(p.audioFile)) == "/audio/" + p.text + ".mp3"
      && ResolveSource(p.text, ClickPath(p.audioFile)) == ResolveSource(p.text, None)
  {
  }

  /** A tap on 飽 whose clip is missing on the server: the load error falls back
      to speech of 飽; the flag rises when speech starts and falls when it ends.
      The failed clip stays the audio handle throughout. */
  lemma MissingClipFallsBackToSpeech()
    ensures var c := Clip(0, "/audio/飽.mp3", "飽");
      var u := Utterance(1, "飽");
      var es := [Play("飽", ClickPath(Some("飽.mp3"))), LoadError(c), SpeechStart(u)];
      && Feasible(true, Initial(), es)
      && Run(true, Initial(), es) == PlayerState(true, Some(c), Some(u), 2, [Load(c), Speak(u)])
      && Run(true, Initial(), es + [SpeechEnd(u)]).isPlaying == false
  {
    var c := Clip(0, "/audio/飽.mp3", "飽");
    var u := Utterance(1, "飽");
    var es := [Play("飽", ClickPath(Some("飽.mp3"))), LoadError(c), SpeechStart(u)];
    assert "/audio/" + "飽.mp3" == "/audio/飽.mp3";
    var s1 := Step(true, Initial(), es[0]);
    assert s1 == PlayerState(false, Some(c), None, 1, [Load(c)]);
    var s2 := Step(true, s1, es[1]);
    var s3 := Step(true, s2, es[2]);
    assert es[1..][1..][1..] == [];
    assert Run(true, s2, es[2..]) == s3 && Feasible(true, s2, es[2..]);
    assert Run(true, s1, es[1..]) == s3 && Feasible(true, s1, es[1..]);
    RunAppend(true, Initial(), es, [SpeechEnd(u)]);
  }

  /** A tap when the clip is missing and speech synthesis is absent: the flag ends
      false, nothing is spoken, and no utterance exists. */
  lemma SilentWhenEverythingFails()
    ensures var c := Clip(0, "/audio/飽.mp3", "飽");
      var es := [Play("飽", ClickPath(Some("飽.mp3"))), LoadError(c)];
      && Feasible(false, Initial(), es)
      && Run(false, Initial(), es) == PlayerState(false, Some(c), None, 1, [Load(c)])
  {
    var c := Clip(0, "/audio/飽.mp3", "飽");
    var es := [Play("飽", ClickPath(Some("飽.mp3"))), LoadError(c)];
    assert "/audio/" + "飽.mp3" == "/audio/飽.mp3";
    var s1 := Step(false, Initial(), es[0]);
    assert s1 == PlayerState(false, Some(c), None, 1, [Load(c)]);
    assert es[1..][1..] == [];
    assert Run(false, s1, es[1..]) == Step(false, s1, es[1]);
  }

  class App {
    /** Index of the selected tab (`activeTab`). */
    var activeTab: nat
    /** The playback hook the board uses. */
    const player: AudioHook

    /** Tab indices come from the table itself, so the selected one is in range. */
    ghost predicate Valid()
      reads this
    {
      activeTab < |DefaultCategories()|
    }

    constructor (speechAvailable: bool)
      ensures Valid() && activeTab == 0
      ensures fresh(player) && player.speechAvailable == speechAvailable
      ensures player.Snapshot() == Initial()
    {
      activeTab := 0;
      player := new AudioHook(speechAvailable);
    }

    /** The category whose phrases are shown (`currentCategory`). */
    function CurrentCategory(): (c: Category)
      reads this
      requires Valid()
      ensures c in DefaultCategories() && |c.phrases| == 6
    {
      DefaultCategories()[activeTab]
    }

    /** A tab click: only the selection changes; playback is left alone. */
    method SelectTab(index: nat)
      requires Valid() && index < |DefaultCategories()|
      modifies this
      ensures Valid() && activeTab == index
      ensures CurrentCategory() == DefaultCategories()[index]
      ensures unchanged(player)
    {
      activeTab := index;
    }

    /** `handleVoiceButtonClick(word, audioFile)`: play `word` from
        `/audio/<audioFile>`, or from the default path when there is no file. */
    method HandleVoiceButtonClick(word: string, audioFile: Option<string>)
      modifies player
      ensures activeTab == old(activeTab)
      ensures player.Snapshot()
        == Step(player.speechAvailable, old(player.Snapshot()), Play(word, ClickPath(audioFile)))
    {
      player.Play(word, ClickPath(audioFile));
    }

    /** A tap on the `k`-th phrase button of the current category. The buttons
        are disabled while something plays, so the tap then does nothing;
        otherwise the button forwards its phrase's text and file. */
    method TapPhrase(k: nat)
      requires Valid() && k < |CurrentCategory().phrases|
      modifies player
      ensures activeTab == old(activeTab)
      ensures old(player.isPlaying) ==> unchanged(player)
      ensures var p := CurrentCategory().phrases[k];
        !old(player.isPlaying) ==>
          && player.Snapshot()
             == Step(player.speechAvailable, old(player.Snapshot()), Play(p.text, ClickPath(p.audioFile)))
          && player.audio == Some(Clip(old(player.nextId), "/audio/" + p.text + ".mp3", p.text))
    {
      if player.isPlaying {
        return;
      }
      var p := CurrentCategory().phrases[k];
      BuiltInPhrasePlaysOwnName(activeTab, k);
      HandleVoiceButtonClick(p.text, p.audioFile);
    }

    /** The stop control, shown only while something plays, calls `stop`. */
    method PressStop()
      requires player.isPlaying
      modifies player
      ensures activeTab == old(activeTab)
      ensures !player.isPlaying && player.audio == None
      ensures player.Snapshot() == AfterStop(player.speechAvailable, old(player.Snapshot()))
    {
      player.Stop();
    }
  }
}
