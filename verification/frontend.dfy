/**
 * The front-end player object: the script's module-level variables as fields, its functions
 * as methods that update them in place and drive the shared speech engine. Every method
 * changes the state exactly as the function of the same name in `Playback` describes, and
 * the handlers a visitor or the engine can trigger keep `Playback.Valid`.
 */
module Frontend {
  import opened Wrappers
  import opened Speech
  import opened Playback

  class Player {
    const settings: Settings
    const synth: SpeechEngine
    var sentences: seq<string>
    var currentIndex: nat
    var isPlaying: bool
    var isPaused: bool
    var utterance: Option<nat>
    var nextId: nat
    var speed: Option<real>
    var playerVisible: bool
    var sticky: Option<bool>
    var stopDisabled: bool
    var active: bool
    var progress: Progress
    var warnings: seq<ErrorCode>

    function State(): Ctrl
      reads this
    {
      Ctrl(settings, sentences, currentIndex, isPlaying, isPaused, utterance, nextId, speed,
           playerVisible, sticky, stopDisabled, active, progress, warnings)
    }

    function World(): Playback.World
      reads this, synth
    {
      Playback.World(State(), synth.Model())
    }

    ghost predicate Valid()
      reads this, synth
    {
      Playback.Valid(World())
    }

    /** The script's state once `init` has split the article's text into `sentences`. */
    constructor (settings: Settings, sentences: seq<string>, speed: Option<real>, synth: SpeechEngine)
      ensures State() == Init(settings, sentences, speed) && this.synth == synth
    {
      this.settings := settings;
      this.synth := synth;
      this.sentences := sentences;
      currentIndex := 0;
      isPlaying := false;
      isPaused := false;
      utterance := None;
      nextId := 0;
      this.speed := speed;
      playerVisible := true;
      sticky := if settings.stickyPlayer then Some(false) else None;
      stopDisabled := true;
      active := false;
      progress := Progress(0, None);
      warnings := [];
    }

    method UpdateStickyVisibility()
      modifies this
      ensures State() == Playback.UpdateStickyVisibility(old(State()))
    {
      if sticky == None {
        return;
      }
      if (isPlaying || isPaused) && !playerVisible {
        sticky := Some(true);
      } else {
        sticky := Some(false);
      }
    }

    method UpdateUI()
      modifies this
      ensures State() == Playback.UpdateUI(old(State()))
    {
      if isPlaying {
        stopDisabled := false;
        active := true;
      } else if isPaused {
        stopDisabled := false;
        active := true;
      } else {
        stopDisabled := true;
        active := false;
      }
      UpdateStickyVisibility();
    }

    method UpdateProgress()
      modifies this
      ensures State() == Playback.UpdateProgress(old(State()))
    {
      if |sentences| == 0 {
        return;
      }
      var pct := Pct(currentIndex, |sentences|);
      progress := Progress(pct, Some((currentIndex, |sentences|)));
    }

    method ResetPlayer()
      modifies this
      ensures State() == Playback.ResetPlayer(old(State()))
    {
      ghost var c := State();
      isPlaying := false;
      isPaused := false;
      currentIndex := 0;
      assert State() == c.(playing := false, paused := false, index := 0);
      UpdateUI();
      ghost var c' := State();
      progress := Progress(0, None);
      assert State() == c'.(progress := Progress(0, None));
    }

    /** The first half of `speakFrom(index)`: move to sentence `index` and create its utterance. */
    method Begin(index: nat) returns (u: Utterance)
      requires index < |sentences|
      modifies this
      ensures u == NewUtterance(old(State()).(index := index, playing := true, paused := false), synth.voices, index)
      ensures State() == old(State()).(index := index, playing := true, paused := false,
                                       current := Some(u.id), nextId := u.id + 1)
    {
      ghost var c := State();
      currentIndex := index;
      isPlaying := true;
      isPaused := false;
      ghost var c1 := State();
      assert c1 == c.(index := index, playing := true, paused := false);
      var rate := match speed case Some(v) => v case None => OrOne(settings.speechRate);
      var voice := ChooseVoice(synth.voices, settings.voiceName);
      u := Utterance(nextId, sentences[index], rate, OrOne(settings.pitch), OrOne(settings.volume), voice);
      assert u == NewUtterance(c1, synth.voices, index);
      utterance := Some(u.id);
      nextId := nextId + 1;
      assert State() == c1.(current := Some(u.id), nextId := u.id + 1);
    }

    method SpeakFrom(index: nat)
      modifies this, synth
      ensures World() == Playback.SpeakFrom(old(World()), index)
    {
      ghost var w := World();
      if index >= |sentences| {
        ResetPlayer();
        return;
      }
      var u := Begin(index);
      ghost var c := State();
      assert Playback.SpeakFrom(w, index) ==
        Playback.World(Playback.UpdateProgress(Playback.UpdateUI(c)), w.e.Cancel().Speak(u));
      synth.Cancel();
      synth.Speak(u);
      UpdateUI();
      UpdateProgress();
    }

    method TogglePlayPause()
      requires Valid()
      modifies this, synth
      ensures World() == Playback.TogglePlayPause(old(World()))
      ensures Valid()
    {
      TogglePlayPauseValid(World());
      if isPaused {
        synth.Resume();
        isPaused := false;
        isPlaying := true;
        UpdateUI();
        return;
      }
      if isPlaying {
        synth.Pause();
        isPaused := true;
        isPlaying := false;
        UpdateUI();
        return;
      }
      SpeakFrom(currentIndex);
    }

    method StopSpeech()
      requires Valid()
      modifies this, synth
      ensures World() == Playback.StopSpeech(old(World()))
      ensures Valid()
    {
      StopSpeechValid(World());
      synth.Cancel();
      ResetPlayer();
    }

    /** The speed control now reads `value`; its `change` listener runs. */
    method OnSpeedChange(value: real)
      requires Valid() && speed.Some?
      modifies this, synth
      ensures World() == Playback.OnSpeedChange(old(World()), value)
      ensures Valid()
    {
      OnSpeedChangeValid(World(), value);
      ghost var w := World();
      speed := Some(value);
      ghost var c := State();
      assert c == w.c.(speed := Some(value));
      if isPlaying || isPaused {
        synth.Cancel();
        isPaused := false;
        assert World() == Playback.World(c.(paused := false), w.e.Cancel());
        SpeakFrom(currentIndex);
      }
    }

    /** The intersection observer reports whether the main player is in view. */
    method OnIntersection(visible: bool)
      requires Valid() && sticky.Some?
      modifies this
      ensures World() == Playback.OnIntersection(old(World()), visible)
      ensures Valid()
    {
      playerVisible := visible;
      UpdateStickyVisibility();
    }

    /** `onend` of the utterance with identity `id`. */
    method OnEnd(id: nat)
      modifies this, synth
      ensures World() == Playback.OnEnd(old(World()), id)
    {
      ghost var w := World();
      if utterance != Some(id) {
        return;
      }
      currentIndex := currentIndex + 1;
      assert State() == w.c.(index := w.c.index + 1);
      UpdateProgress();
      ghost var c := State();
      assert c == Advance(w.c);
      assert Playback.OnEnd(w, id) == OnEndAsWritten(w, id);
      if currentIndex < |sentences| {
        SpeakFrom(currentIndex);
      } else {
        ResetPlayer();
      }
    }

    /** `onerror` of the utterance with identity `id`. */
    method OnError(id: nat, code: ErrorCode)
      modifies this
      ensures World() == Playback.OnError(old(World()), id, code)
    {
      ghost var w := World();
      if utterance != Some(id) {
        return;
      }
      if code != Canceled {
        warnings := warnings + [code];
      }
      assert State() == if code != Canceled then w.c.(warnings := w.c.warnings + [code]) else w.c;
      ResetPlayer();
    }

    /** The engine delivers its oldest event to the handler of the utterance it names. */
    method Dispatch()
      requires Valid() && synth.events != []
      modifies this, synth
      ensures World() == DeliverEvent(old(World()))
      ensures Valid()
    {
      DeliverEventValid(World());
      var ev := synth.Deliver();
      match ev
      case Ended(id) => OnEnd(id);
      case Errored(id, code) => OnError(id, code);
    }
  }

  /** `init`: reads the article's text, splits it into sentences and sets up the player. */
  method Load(settings: Settings, rawText: string, speed: Option<real>, synth: SpeechEngine) returns (p: Player)
    ensures fresh(p) && p.synth == synth
    ensures p.State() == Init(settings, SplitIntoSentences(rawText), speed)
  {
    p := new Player(settings, SplitIntoSentences(rawText), speed, synth);
  }
}
