/**
 * The front-end player of both plugins (`wp-tts-frontend.js` and its twin
 * `wpspeech-frontend.js`, which differ only in CSS class prefixes), as a pure state machine.
 *
 * A `World` pairs the controller's module-level state with the speech engine's. Each
 * function below is one handler of the script, taking the world before it runs to the
 * world after it; the class `Frontend.Player` performs the same updates in place.
 */
module Playback {
  import opened Wrappers
  import opened Text
  import opened Speech

  // ---------------------------------------------------------------------------
  // Sentence splitting
  // ---------------------------------------------------------------------------

  /**
   * `splitIntoSentences`: collapse every white-space run to one space, split after
   * sentence punctuation followed by white space, trim each piece and drop the empty ones.
   */
  function SplitIntoSentences(text: string): seq<string>
  {
    Tidy(Pieces([], CollapseRuns(text, JsSpace, ' '), JsSpace), JsSpace)
  }

  /** The text as the splitter sees it: white-space runs collapsed to one space, then trimmed. */
  function Normalized(text: string): (r: string)
    ensures r != [] ==> !JsSpace(r[0]) && !JsSpace(r[|r| - 1])
  {
    Trim(CollapseRuns(text, JsSpace, ' '), JsSpace)
  }

  /** Every sentence is non-empty and trimmed, and every one but the last ends with `.`, `!` or `?`. */
  lemma {:induction false} SplitShape(text: string)
    ensures forall k :: 0 <= k < |SplitIntoSentences(text)| ==> Trimmed(SplitIntoSentences(text)[k], JsSpace)
    ensures AllButLastEnd(SplitIntoSentences(text))
  {
    var pieces := Pieces([], CollapseRuns(text, JsSpace, ' '), JsSpace);
    TidyTrimmed(pieces, JsSpace);
    PiecesEndings([], CollapseRuns(text, JsSpace, ' '), JsSpace);
    TidyKeepsEndings(pieces, JsSpace);
  }

  /** Joining the sentences with single spaces gives back the collapsed, trimmed text: nothing is lost or reordered. */
  lemma {:induction false} SplitRoundTrip(text: string)
    ensures Join(SplitIntoSentences(text), " ") == Normalized(text)
  {
    var c := CollapseRuns(text, JsSpace, ' ');
    assert Collapsed(c, JsSpace, ' ') by {
      CollapseRunsCollapsed(text, JsSpace, ' ');
    }
    JoinTidyPieces([], c, JsSpace, JsSpace);
    assert [] + c == c;
  }

  /** The result is empty exactly when the text is blank. */
  lemma {:induction false} SplitEmpty(text: string)
    ensures SplitIntoSentences(text) == [] <==> All(text, JsSpace)
  {
    var r := SplitIntoSentences(text);
    var c := CollapseRuns(text, JsSpace, ' ');
    assert Join(r, " ") == Trim(c, JsSpace) by {
      SplitRoundTrip(text);
    }
    assert r != [] ==> r[0] != [] by {
      SplitShape(text);
    }
    JoinEmpty(r, " ");
    TrimEmpty(c, JsSpace);
    CollapseRunsAll(text, JsSpace, ' ');
  }

  /** Text with no punctuation followed by white space is one sentence, or none when blank. */
  lemma {:induction false} SplitWhole(text: string)
    requires NoBoundary(text, JsSpace)
    ensures SplitIntoSentences(text) == (if All(text, JsSpace) then [] else [Normalized(text)])
  {
    var c := CollapseRuns(text, JsSpace, ' ');
    assert Pieces([], c, JsSpace) == [c] by {
      CollapseKeepsNoBoundary(text, JsSpace, ' ');
      assert [] + c == c;
      PiecesWhole([], c, JsSpace);
    }
    TidyCons(c, [], JsSpace);
    assert [c] + [] == [c];
    TrimEmpty(c, JsSpace);
    CollapseRunsAll(text, JsSpace, ' ');
  }

  // ---------------------------------------------------------------------------
  // Settings and the utterance
  // ---------------------------------------------------------------------------

  /**
   * The `wpTtsSettings` values the player reads. WordPress's script localisation turns every
   * top-level scalar into a string, so a numeric setting is either absent (`None`) or the
   * string of a number (`Some`), and a stored `0` arrives as the truthy string `"0"`. An
   * absent or empty voice name is `""`.
   */
  datatype Settings = Settings(
    speechRate: Option<real>,
    pitch: Option<real>,
    volume: Option<real>,
    voiceName: string,
    stickyPlayer: bool)

  /** `parseFloat(v || 1)`: the setting when present, `1` when absent. */
  function OrOne(v: Option<real>): real
  {
    match v
    case None => 1.0
    case Some(x) => x
  }

  /**
   * The voice the utterance gets: with a non-empty configured name, the first engine voice
   * of that name; otherwise, or when no voice has that name, none (the engine default).
   */
  function ChooseVoice(voices: seq<Voice>, voiceName: string): Option<Voice>
  {
    if voiceName == [] then None
    else
      match FindVoice(voices, voiceName)
      case None => None
      case Some(k) => Some(voices[k])
  }

  /** A voice is chosen exactly when some voice carries the configured non-empty name; it is the first such voice. */
  lemma {:induction false} ChooseVoiceFirst(voices: seq<Voice>, voiceName: string)
    ensures ChooseVoice(voices, voiceName).Some?
            <==> voiceName != [] && exists j :: 0 <= j < |voices| && voices[j].name == voiceName
    ensures ChooseVoice(voices, voiceName).Some? ==>
              exists j :: 0 <= j < |voices| && voices[j] == ChooseVoice(voices, voiceName).value
                          && voices[j].name == voiceName
                          && forall i :: 0 <= i < j ==> voices[i].name != voiceName
  {
    var r := FindVoice(voices, voiceName);
    if voiceName != [] && r.Some? {
      assert voices[r.value] == ChooseVoice(voices, voiceName).value;
    }
  }

  // ---------------------------------------------------------------------------
  // Controller state
  // ---------------------------------------------------------------------------

  /** The progress display: the percentage shown by the bar, and the `i / n` counter (`None` when blank). */
  datatype Progress = Progress(pct: int, counter: Option<(int, int)>)

  /** The script's module-level state and the parts of the page it writes. */
  datatype Ctrl = Ctrl(
    settings: Settings,
    sentences: seq<string>,
    index: nat,                    // currentIndex
    playing: bool,                 // isPlaying
    paused: bool,                  // isPaused
    current: Option<nat>,          // identity of `utterance`, or null
    nextId: nat,                   // identity the next utterance will get
    speed: Option<real>,           // the speed select's value, when the control exists
    playerVisible: bool,           // the main player intersects the viewport
    sticky: Option<bool>,          // the sticky player carries its visible class, when it exists
    stopDisabled: bool,            // the stop button is disabled
    active: bool,                  // the player carries its active class
    progress: Progress,
    warnings: seq<ErrorCode>)      // console warnings, oldest first

  datatype World = World(c: Ctrl, e: Engine)

  predicate Idle(c: Ctrl) {
    !c.playing && !c.paused
  }

  /**
   * The state after `init` has split the article into `sentences`: idle at the first sentence,
   * with the page as the markup renders it.
   */
  function Init(settings: Settings, sentences: seq<string>, speed: Option<real>): (c: Ctrl)
    ensures Idle(c) && c.index == 0 && c.current == None
  {
    Ctrl(settings, sentences, 0, false, false, None, 0, speed, true,
         if settings.stickyPlayer then Some(false) else None, true, false, Progress(0, None), [])
  }

  // ---------------------------------------------------------------------------
  // Page updates
  // ---------------------------------------------------------------------------

  /** `updateStickyVisibility`: shown only while playing or paused and the main player is out of view. */
  function UpdateStickyVisibility(c: Ctrl): (r: Ctrl)
    ensures r.sticky.Some? <==> c.sticky.Some?
    ensures r.sticky.Some? ==> (r.sticky.value <==> (c.playing || c.paused) && !c.playerVisible)
  {
    if c.sticky == None then c
    else if (c.playing || c.paused) && !c.playerVisible then c.(sticky := Some(true))
    else c.(sticky := Some(false))
  }

  /** The state-dependent part of `updateUI` (stop button, active class), then the sticky player. */
  function UpdateUI(c: Ctrl): (r: Ctrl)
  {
    var c' :=
      if c.playing then c.(stopDisabled := false, active := true)
      else if c.paused then c.(stopDisabled := false, active := true)
      else c.(stopDisabled := true, active := false);
    UpdateStickyVisibility(c')
  }

  /** The page agrees with the state: the stop button is disabled and the player inactive exactly when idle. */
  ghost predicate Synced(c: Ctrl) {
    && c.stopDisabled == Idle(c)
    && c.active == !Idle(c)
    && (c.sticky.Some? ==> (c.sticky.value <==> !Idle(c) && !c.playerVisible))
  }

  /** `updateUI` brings the page in line with any state and touches nothing else. */
  lemma UpdateUISyncs(c: Ctrl)
    ensures Synced(UpdateUI(c))
    ensures UpdateUI(c).(stopDisabled := c.stopDisabled, active := c.active, sticky := c.sticky) == c
  {
  }

  /** `Math.round(100 * i / n)` in exact arithmetic: `100 * i / n` rounded to the nearest integer, halves up. */
  function Pct(i: nat, n: nat): int
    requires n > 0
  {
    (200 * i + n) / (2 * n)
  }

  /** The percentage `r` is the integer nearest to `100 * i / n`, halves rounded up: `2n·r <= 200i + n < 2n·(r+1)`. */
  lemma PctRounds(i: nat, n: nat)
    requires n > 0
    ensures 2 * n * Pct(i, n) <= 200 * i + n < 2 * n * (Pct(i, n) + 1)
  {
  }

  /** With `i` at most `n` the percentage lies between 0 and 100, is 0 only near the start and 100 at the end. */
  lemma {:induction false} PctBounds(i: nat, n: nat)
    requires 0 < n && i <= n
    ensures 0 <= Pct(i, n) <= 100
    ensures Pct(i, n) == 0 <==> 200 * i < n
    ensures i == n ==> Pct(i, n) == 100
  {
    var r := Pct(i, n);
    PctRounds(i, n);
    MulMono(2 * n, 101, r);
    MulMono(2 * n, r + 1, 0);
    MulMono(2 * n, 1, r);
    MulMono(2 * n, r, 0);
    if i == n {
      DivUnique(200 * i + n, 2 * n, 100);
    }
  }

  /** Integer division has one answer: the `q` with `b·q <= a < b·(q+1)`. */
  lemma DivUnique(a: int, b: int, q: int)
    requires b > 0 && b * q <= a < b * (q + 1)
    ensures a / b == q
  {
    var r := a / b;
    assert b * r <= a < b * (r + 1);
    MulMono(b, r + 1, q);
    MulMono(b, q + 1, r);
  }

  lemma MulMono(a: nat, x: int, y: int)
    ensures x <= y ==> a * x <= a * y
  {
  }

  /** `updateProgress`: nothing without sentences; otherwise the rounded percentage and `i / n`. */
  function UpdateProgress(c: Ctrl): (r: Ctrl)
    ensures c.sentences == [] ==> r == c
    ensures c.sentences != [] ==> r.progress.counter == Some((c.index, |c.sentences|))
    ensures c.sentences != [] ==> r.progress.pct == Pct(c.index, |c.sentences|)
    ensures r.(progress := c.progress) == c
  {
    if c.sentences == [] then c
    else c.(progress := Progress(Pct(c.index, |c.sentences|), Some((c.index, |c.sentences|))))
  }

  /** Within the sentence range the bar shows a percentage between 0 and 100. */
  lemma ProgressInRange(c: Ctrl)
    requires c.index <= |c.sentences|
    ensures 0 <= UpdateProgress(c).progress.pct <= 100 || c.sentences == []
  {
    if c.sentences != [] {
      PctBounds(c.index, |c.sentences|);
    }
  }

  /** `resetPlayer`: idle at the first sentence, page updated, progress cleared. */
  function ResetPlayer(c: Ctrl): (r: Ctrl)
    ensures Idle(r) && r.index == 0 && Synced(r)
    ensures r.progress == Progress(0, None)
  {
    UpdateUI(c.(playing := false, paused := false, index := 0)).(progress := Progress(0, None))
  }

  // ---------------------------------------------------------------------------
  // Handlers
  // ---------------------------------------------------------------------------

  /** The rate of a new utterance: the speed control's value when it exists, else the rate setting or 1. */
  function Rate(c: Ctrl): real
  {
    match c.speed
    case Some(v) => v
    case None => OrOne(c.settings.speechRate)
  }

  /** The utterance `speakFrom(index)` creates. */
  function NewUtterance(c: Ctrl, voices: seq<Voice>, index: nat): Utterance
    requires index < |c.sentences|
  {
    Utterance(c.nextId, c.sentences[index], Rate(c), OrOne(c.settings.pitch), OrOne(c.settings.volume),
              ChooseVoice(voices, c.settings.voiceName))
  }

  /** `speakFrom(index)`: past the end, reset; otherwise cancel the engine and speak sentence `index`. */
  function SpeakFrom(w: World, index: nat): World
  {
    if index >= |w.c.sentences| then World(ResetPlayer(w.c), w.e)
    else
      var c1 := w.c.(index := index, playing := true, paused := false);
      var u := NewUtterance(c1, w.e.voices, index);
      var c2 := c1.(current := Some(u.id), nextId := u.id + 1);
      World(UpdateProgress(UpdateUI(c2)), w.e.Cancel().Speak(u))
  }

  /** `togglePlayPause`: resume when paused, pause when playing, otherwise speak from the current sentence. */
  function TogglePlayPause(w: World): World
  {
    if w.c.paused then World(UpdateUI(w.c.(paused := false, playing := true)), w.e.Resume())
    else if w.c.playing then World(UpdateUI(w.c.(paused := true, playing := false)), w.e.Pause())
    else SpeakFrom(w, w.c.index)
  }

  /** `stopSpeech`. */
  function StopSpeech(w: World): World
  {
    World(ResetPlayer(w.c), w.e.Cancel())
  }

  /** The speed control changes to `value`, then `onSpeedChange` runs; the listener exists only with the control. */
  function OnSpeedChange(w: World, value: real): World
    requires w.c.speed.Some?
  {
    var c := w.c.(speed := Some(value));
    if c.playing || c.paused then SpeakFrom(World(c.(paused := false), w.e.Cancel()), c.index)
    else World(c, w.e)
  }

  /** The intersection observer reports whether the main player is in view; it exists only with the sticky player. */
  function OnIntersection(w: World, visible: bool): World
    requires w.c.sticky.Some?
  {
    World(UpdateStickyVisibility(w.c.(playerVisible := visible)), w.e)
  }

  /** `onend` as written: whichever utterance ended, advance and chain or reset. */
  function OnEndAsWritten(w: World, id: nat): World
  {
    var c := Advance(w.c);
    if c.index < |c.sentences| then SpeakFrom(World(c, w.e), c.index)
    else World(ResetPlayer(c), w.e)
  }

  /** `onerror` as written: whichever utterance failed, warn unless it was cancelled, and reset. */
  function OnErrorAsWritten(w: World, id: nat, code: ErrorCode): World
  {
    var c := if code != Canceled then w.c.(warnings := w.c.warnings + [code]) else w.c;
    World(ResetPlayer(c), w.e)
  }

  /** `onend` of the current utterance; the handler of an utterance that has been replaced does nothing. */
  function OnEnd(w: World, id: nat): World
  {
    if w.c.current != Some(id) then w else OnEndAsWritten(w, id)
  }

  /** `onerror` of the current utterance; the handler of an utterance that has been replaced does nothing. */
  function OnError(w: World, id: nat, code: ErrorCode): World
  {
    if w.c.current != Some(id) then w else OnErrorAsWritten(w, id, code)
  }

  /** The engine delivers its oldest event to the handlers of the utterance it names. */
  function DeliverEvent(w: World): World
    requires w.e.events != []
  {
    var w' := World(w.c, w.e.Deliver());
    match w.e.events[0]
    case Ended(id) => OnEnd(w', id)
    case Errored(id, code) => OnError(w', id, code)
  }

  /** The same delivery with the handlers as written. */
  function DeliverEventAsWritten(w: World): World
    requires w.e.events != []
  {
    var w' := World(w.c, w.e.Deliver());
    match w.e.events[0]
    case Ended(id) => OnEndAsWritten(w', id)
    case Errored(id, code) => OnErrorAsWritten(w', id, code)
  }

  // ---------------------------------------------------------------------------
  // The invariant
  // ---------------------------------------------------------------------------

  /** Every utterance the engine holds or has raised an event for was created before identity `n`. */
  ghost predicate IdsBelow(e: Engine, n: nat) {
    && (forall i :: 0 <= i < |e.queue| ==> e.queue[i].id < n)
    && (forall i :: 0 <= i < |e.events| ==> e.events[i].id < n)
  }

  /** No raised event names the utterance with identity `id`. */
  ghost predicate NoEventFor(e: Engine, id: nat) {
    forall i :: 0 <= i < |e.events| ==> e.events[i].id != id
  }

  /** The player's own state: never playing and paused at once, the index in range, the page in line. */
  ghost predicate StateOk(c: Ctrl) {
    && !(c.playing && c.paused)
    && (Idle(c) ==> c.index == 0)
    && (!Idle(c) ==> c.index < |c.sentences|)
    && Synced(c)
  }

  /**
   * The engine as the player drives it: it holds at most the current utterance, which has
   * not raised an event yet, it is silent while the player is idle, and identities are in order.
   */
  ghost predicate EngineOk(c: Ctrl, e: Engine) {
    && (Idle(c) ==> e.queue == [])
    && |e.queue| <= 1
    && (e.queue != [] ==> c.current == Some(e.queue[0].id) && NoEventFor(e, e.queue[0].id))
    && (c.current.Some? ==> c.current.value < c.nextId)
    && IdsBelow(e, c.nextId)
  }

  /** What holds between handlers. */
  ghost predicate Valid(w: World) {
    StateOk(w.c) && EngineOk(w.c, w.e)
  }

  lemma CancelKeepsIdsBelow(e: Engine, n: nat)
    requires IdsBelow(e, n)
    ensures IdsBelow(e.Cancel(), n)
  {
    var evs := e.Cancel().events;
    forall i | 0 <= i < |evs|
      ensures evs[i].id < n
    {
      if i >= |e.events| {
        assert evs[i] == CancelEvents(e.queue)[i - |e.events|];
      }
    }
  }

  /** `speakFrom` leaves a valid world from any state whose identities are in order. */
  lemma {:induction false} SpeakFromValid(w: World, index: nat)
    requires IdsBelow(w.e, w.c.nextId)
    requires w.c.current.Some? ==> w.c.current.value < w.c.nextId
    requires index >= |w.c.sentences| ==> w.e.queue == []
    ensures Valid(SpeakFrom(w, index))
  {
    if index < |w.c.sentences| {
      var r := SpeakFrom(w, index);
      var id := w.c.nextId;
      assert IdsBelow(w.e.Cancel(), id) by {
        CancelKeepsIdsBelow(w.e, id);
      }
      assert r.e.queue[0].id == id && r.e.events == w.e.Cancel().events;
      assert NoEventFor(r.e, id);
    }
  }

  lemma {:induction false} TogglePlayPauseValid(w: World)
    requires Valid(w)
    ensures Valid(TogglePlayPause(w))
  {
    if !w.c.paused && !w.c.playing {
      SpeakFromValid(w, w.c.index);
    }
  }

  lemma {:induction false} StopSpeechValid(w: World)
    requires Valid(w)
    ensures Valid(StopSpeech(w))
  {
    CancelKeepsIdsBelow(w.e, w.c.nextId);
  }

  lemma {:induction false} OnSpeedChangeValid(w: World, value: real)
    requires Valid(w) && w.c.speed.Some?
    ensures Valid(OnSpeedChange(w, value))
  {
    if w.c.playing || w.c.paused {
      CancelKeepsIdsBelow(w.e, w.c.nextId);
      SpeakFromValid(World(w.c.(speed := Some(value), paused := false), w.e.Cancel()), w.c.index);
    }
  }

  lemma {:induction false} FinishValid(w: World)
    requires Valid(w) && w.e.queue != [] && !w.e.paused
    ensures Valid(World(w.c, w.e.Finish()))
  {
    var e' := w.e.Finish();
    assert e'.events[|w.e.events|].id == w.e.queue[0].id;
  }

  lemma {:induction false} FailValid(w: World, reason: string)
    requires Valid(w) && w.e.queue != []
    ensures Valid(World(w.c, w.e.Fail(reason)))
  {
    var e' := w.e.Fail(reason);
    assert e'.events[|w.e.events|].id == w.e.queue[0].id;
  }

  /** The event of the current utterance can only arrive once the engine no longer holds it. */
  lemma CurrentEventSilent(w: World)
    requires Valid(w) && w.e.events != [] && w.c.current == Some(w.e.events[0].id)
    ensures w.e.queue == []
  {
  }

  lemma DeliverKeepsValid(w: World)
    requires Valid(w) && w.e.events != []
    ensures Valid(World(w.c, w.e.Deliver()))
  {
  }

  /** The first half of `onend`: the index moves on and the progress display follows. */
  function Advance(c: Ctrl): Ctrl
  {
    UpdateProgress(c.(index := c.index + 1))
  }

  lemma {:induction false} AdvanceKeeps(c: Ctrl)
    ensures Advance(c).sentences == c.sentences && Advance(c).index == c.index + 1
    ensures Advance(c).current == c.current && Advance(c).nextId == c.nextId
  {
  }

  lemma {:induction false} OnEndValid(w: World, id: nat)
    requires Valid(w) && w.c.current == Some(id) && w.e.queue == []
    ensures Valid(OnEnd(w, id))
  {
    var c := Advance(w.c);
    AdvanceKeeps(w.c);
    if c.index < |c.sentences| {
      assert Valid(OnEnd(w, id)) by {
        assert OnEnd(w, id) == SpeakFrom(World(c, w.e), c.index);
        SpeakFromValid(World(c, w.e), c.index);
      }
    } else {
      assert Valid(OnEnd(w, id)) by {
        assert OnEnd(w, id) == World(ResetPlayer(c), w.e);
      }
    }
  }

  lemma {:induction false} DeliverEventValid(w: World)
    requires Valid(w) && w.e.events != []
    ensures Valid(DeliverEvent(w))
  {
    var ev := w.e.events[0];
    var w' := World(w.c, w.e.Deliver());
    DeliverKeepsValid(w);
    if w.c.current == Some(ev.id) {
      assert w.e.queue == [] by {
        CurrentEventSilent(w);
      }
      if ev.Ended? {
        OnEndValid(w', ev.id);
      }
    }
  }

  // ---------------------------------------------------------------------------
  // Runs
  // ---------------------------------------------------------------------------

  /** What can happen next: a visitor's action, or the engine's. */
  datatype Action =
    | PressPlay
    | PressStop
    | ChangeSpeed(value: real)
    | Scroll(visible: bool)
    | EngineEnds
    | EngineFails(reason: string)
    | EngineDelivers

  /** Whether the action can happen in world `w`. */
  predicate Enabled(w: World, a: Action) {
    match a
    case ChangeSpeed(_) => w.c.speed.Some?
    case Scroll(_) => w.c.sticky.Some?
    case EngineEnds => w.e.queue != [] && !w.e.paused
    case EngineFails(_) => w.e.queue != []
    case EngineDelivers => w.e.events != []
    case _ => true
  }

  function Step(w: World, a: Action): World
    requires Enabled(w, a)
  {
    match a
    case PressPlay => TogglePlayPause(w)
    case PressStop => StopSpeech(w)
    case ChangeSpeed(v) => OnSpeedChange(w, v)
    case Scroll(visible) => OnIntersection(w, visible)
    case EngineEnds => World(w.c, w.e.Finish())
    case EngineFails(reason) => World(w.c, w.e.Fail(reason))
    case EngineDelivers => DeliverEvent(w)
  }

  /** Every step from a valid world leads to a valid world. */
  lemma {:induction false} StepValid(w: World, a: Action)
    requires Valid(w) && Enabled(w, a)
    ensures Valid(Step(w, a))
  {
    match a
    case PressPlay => TogglePlayPauseValid(w);
    case PressStop => StopSpeechValid(w);
    case ChangeSpeed(v) => OnSpeedChangeValid(w, v);
    case Scroll(visible) =>
    case EngineEnds => FinishValid(w);
    case EngineFails(reason) => FailValid(w, reason);
    case EngineDelivers => DeliverEventValid(w);
  }

  /** The world after the actions, in order, or nothing if one of them cannot happen when its turn comes. */
  function Run(w: World, acts: seq<Action>): Option<World>
    decreases |acts|
  {
    if acts == [] then Some(w)
    else if !Enabled(w, acts[0]) then None
    else Run(Step(w, acts[0]), acts[1..])
  }

  /** The page as loaded: the player idle and the engine silent, unpaused and without events. */
  function Start(settings: Settings, rawText: string, speed: Option<real>, voices: seq<Voice>): World
  {
    World(Init(settings, SplitIntoSentences(rawText), speed), Engine([], false, [], voices))
  }

  lemma {:induction false} RunValid(w: World, acts: seq<Action>)
    requires Valid(w)
    ensures Run(w, acts).Some? ==> Valid(Run(w, acts).value)
    decreases |acts|
  {
    if acts != [] && Enabled(w, acts[0]) {
      StepValid(w, acts[0]);
      RunValid(Step(w, acts[0]), acts[1..]);
    }
  }

  /**
   * Every reachable world is valid: the player is never playing and paused at once, its
   * index stays within the sentences, stop button, active class and sticky player follow the
   * state, the engine never holds more than one of the player's utterances, and an idle
   * player always has a silent engine.
   */
  lemma {:induction false} Reachable(settings: Settings, rawText: string, speed: Option<real>,
                                     voices: seq<Voice>, acts: seq<Action>)
    ensures Run(Start(settings, rawText, speed, voices), acts).Some? ==>
              Valid(Run(Start(settings, rawText, speed, voices), acts).value)
  {
    RunValid(Start(settings, rawText, speed, voices), acts);
  }

  // ---------------------------------------------------------------------------
  // Runs with the handlers as written
  // ---------------------------------------------------------------------------

  /**
   * What the script keeps with its handlers as written, whichever utterance an event names:
   * the player is never playing and paused at once, its index stays within the sentences,
   * the page follows the state, and the engine holds at most one utterance, the current one.
   * Unlike `Valid`, it does not say that an idle player has a silent engine.
   */
  ghost predicate Sound(w: World) {
    && StateOk(w.c)
    && |w.e.queue| <= 1
    && (w.e.queue != [] ==> w.c.current == Some(w.e.queue[0].id))
    && (w.c.current.Some? ==> w.c.current.value < w.c.nextId)
    && IdsBelow(w.e, w.c.nextId)
  }

  /** A step in which the engine's events reach `onend` and `onerror` as written, unguarded. */
  function StepAsWritten(w: World, a: Action): World
    requires Enabled(w, a)
  {
    match a
    case EngineDelivers => DeliverEventAsWritten(w)
    case _ => Step(w, a)
  }

  /** `speakFrom` keeps `Sound` from any state whose identities are in order and whose engine holds at most the current utterance. */
  lemma {:induction false} SpeakFromSound(w: World, index: nat)
    requires IdsBelow(w.e, w.c.nextId)
    requires w.c.current.Some? ==> w.c.current.value < w.c.nextId
    requires |w.e.queue| <= 1 && (w.e.queue != [] ==> w.c.current == Some(w.e.queue[0].id))
    ensures Sound(SpeakFrom(w, index))
  {
    if index < |w.c.sentences| {
      SpeakFromValid(w, index);
    }
  }

  /** Handing the oldest event to the handlers as written keeps `Sound`, whichever utterance it names. */
  lemma {:induction false} DeliverAsWrittenSound(w: World)
    requires Sound(w) && w.e.events != []
    ensures Sound(DeliverEventAsWritten(w))
  {
    var e' := w.e.Deliver();
    assert IdsBelow(e', w.c.nextId) by {
      forall i | 0 <= i < |e'.events|
        ensures e'.events[i].id < w.c.nextId
      {
        assert e'.events[i] == w.e.events[i + 1];
      }
    }
    match w.e.events[0]
    case Ended(id) =>
      var c := Advance(w.c);
      AdvanceKeeps(w.c);
      if c.index < |c.sentences| {
        assert DeliverEventAsWritten(w) == SpeakFrom(World(c, e'), c.index);
        SpeakFromSound(World(c, e'), c.index);
      } else {
        assert DeliverEventAsWritten(w) == World(ResetPlayer(c), e');
      }
    case Errored(id, code) =>
  }

  /** Every step, with the handlers as written, keeps `Sound`. */
  lemma {:induction false} StepSound(w: World, a: Action)
    requires Sound(w) && Enabled(w, a)
    ensures Sound(StepAsWritten(w, a))
  {
    match a
    case PressPlay =>
      if !w.c.paused && !w.c.playing {
        SpeakFromSound(w, w.c.index);
      }
    case PressStop =>
      CancelKeepsIdsBelow(w.e, w.c.nextId);
    case ChangeSpeed(v) =>
      if w.c.playing || w.c.paused {
        CancelKeepsIdsBelow(w.e, w.c.nextId);
        SpeakFromSound(World(w.c.(speed := Some(v), paused := false), w.e.Cancel()), w.c.index);
      }
    case Scroll(visible) =>
    case EngineEnds =>
      var e' := w.e.Finish();
      assert e'.events[|w.e.events|].id == w.e.queue[0].id;
    case EngineFails(reason) =>
      var e' := w.e.Fail(reason);
      assert e'.events[|w.e.events|].id == w.e.queue[0].id;
    case EngineDelivers =>
      DeliverAsWrittenSound(w);
  }

  /** The world after the actions with the handlers as written, or nothing if one of them cannot happen. */
  function RunAsWritten(w: World, acts: seq<Action>): Option<World>
    decreases |acts|
  {
    if acts == [] then Some(w)
    else if !Enabled(w, acts[0]) then None
    else RunAsWritten(StepAsWritten(w, acts[0]), acts[1..])
  }

  /** Any sequence of actions from a sound world, with the handlers as written, ends in a sound world. */
  lemma {:induction false} RunSound(w: World, acts: seq<Action>)
    requires Sound(w)
    ensures RunAsWritten(w, acts).Some? ==> Sound(RunAsWritten(w, acts).value)
    decreases |acts|
  {
    if acts != [] && Enabled(w, acts[0]) {
      StepSound(w, acts[0]);
      RunSound(StepAsWritten(w, acts[0]), acts[1..]);
    }
  }

  /**
   * With the handlers as written, every reachable world is sound: never playing and paused
   * at once, the index within the sentences, the page in line with the state, and at most
   * one utterance in the engine, the current one.
   */
  lemma {:induction false} ReachableAsWritten(settings: Settings, rawText: string, speed: Option<real>,
                                              voices: seq<Voice>, acts: seq<Action>)
    ensures RunAsWritten(Start(settings, rawText, speed, voices), acts).Some? ==>
              Sound(RunAsWritten(Start(settings, rawText, speed, voices), acts).value)
  {
    RunSound(Start(settings, rawText, speed, voices), acts);
  }

  // ---------------------------------------------------------------------------
  // What each handler does
  // ---------------------------------------------------------------------------

  /**
   * `togglePlayPause` resumes a paused player (engine resumed), pauses a playing one (engine
   * paused), and starts an idle one from the first sentence.
   */
  lemma TogglePlayPauseCases(w: World)
    requires Valid(w)
    ensures w.c.paused ==>
              && TogglePlayPause(w).c.playing && !TogglePlayPause(w).c.paused
              && TogglePlayPause(w).e == w.e.Resume() && TogglePlayPause(w).c.index == w.c.index
    ensures w.c.playing ==>
              && TogglePlayPause(w).c.paused && !TogglePlayPause(w).c.playing
              && TogglePlayPause(w).e == w.e.Pause() && TogglePlayPause(w).c.index == w.c.index
    ensures Idle(w.c) ==> TogglePlayPause(w) == SpeakFrom(w, 0)
  {
  }

  /** Pausing and resuming undo each other: two presses give back the player's state. */
  lemma {:induction false} ToggleTwice(w: World)
    requires Valid(w) && !Idle(w.c)
    ensures TogglePlayPause(TogglePlayPause(w)).c == w.c
    ensures TogglePlayPause(TogglePlayPause(w)).e == w.e.(paused := w.c.paused)
  {
    var c := w.c;
    var c1 := TogglePlayPause(w).c;
    assert UpdateUI(c1.(paused := !c1.paused, playing := !c1.playing)) == c by {
      UpdateUISyncs(c);
    }
  }

  /**
   * `speakFrom(index)` past the end resets and leaves the engine alone. Otherwise it plays
   * sentence `index`: the engine is cancelled before the new utterance is spoken, so the
   * engine holds that utterance and nothing else, the utterances it held get their error
   * events, and the new utterance has an identity no earlier one had.
   */
  lemma SpeakFromSpec(w: World, index: nat)
    ensures index >= |w.c.sentences| ==>
              && Idle(SpeakFrom(w, index).c) && SpeakFrom(w, index).c.index == 0
              && SpeakFrom(w, index).e == w.e
    ensures index < |w.c.sentences| ==>
              && SpeakFrom(w, index).c.playing && !SpeakFrom(w, index).c.paused
              && SpeakFrom(w, index).c.index == index
              && |SpeakFrom(w, index).e.queue| == 1
              && SpeakFrom(w, index).e.queue[0].text == w.c.sentences[index]
              && SpeakFrom(w, index).e.queue[0].id == w.c.nextId
              && SpeakFrom(w, index).c.current == Some(w.c.nextId)
              && SpeakFrom(w, index).e.events == w.e.events + CancelEvents(w.e.queue)
              && SpeakFrom(w, index).e.paused == w.e.paused
  {
  }

  /** `stopSpeech` ends idle at the first sentence with a silent engine, and a second stop changes nothing. */
  lemma {:induction false} StopSpeechIdempotent(w: World)
    ensures Idle(StopSpeech(w).c) && StopSpeech(w).c.index == 0 && !StopSpeech(w).e.Speaking()
    ensures StopSpeech(StopSpeech(w)) == StopSpeech(w)
  {
    var r := StopSpeech(w);
    assert r.e.Cancel().events == r.e.events + [];
    assert ResetPlayer(r.c) == r.c by {
      UpdateUISyncs(r.c);
    }
  }

  /**
   * `onSpeedChange` only records the new value when idle. Playing or paused, it restarts the
   * current sentence at the new rate and ends up playing.
   */
  lemma {:induction false} OnSpeedChangeSpec(w: World, value: real)
    requires Valid(w) && w.c.speed.Some?
    ensures Idle(w.c) ==> OnSpeedChange(w, value) == World(w.c.(speed := Some(value)), w.e)
    ensures !Idle(w.c) ==>
              && OnSpeedChange(w, value).c.playing && !OnSpeedChange(w, value).c.paused
              && OnSpeedChange(w, value).c.index == w.c.index
              && OnSpeedChange(w, value).e.queue
                 == [NewUtterance(w.c.(speed := Some(value)), w.e.voices, w.c.index)]
              && OnSpeedChange(w, value).e.queue[0].rate == value
  {
    if !Idle(w.c) {
      var c := w.c.(speed := Some(value), paused := false);
      SpeakFromSpec(World(c, w.e.Cancel()), w.c.index);
    }
  }

  /**
   * An error of the current utterance resets the player to idle at the first sentence and
   * warns unless the error is `canceled`; an error of a replaced utterance changes nothing.
   */
  lemma OnErrorSpec(w: World, id: nat, code: ErrorCode)
    ensures w.c.current == Some(id) ==>
              && Idle(OnError(w, id, code).c) && OnError(w, id, code).c.index == 0
              && OnError(w, id, code).c.warnings == w.c.warnings + (if code == Canceled then [] else [code])
              && OnError(w, id, code).e == w.e
    ensures w.c.current != Some(id) ==> OnError(w, id, code) == w
  {
  }

  // ---------------------------------------------------------------------------
  // Playing to the end
  // ---------------------------------------------------------------------------

  /** Playing a sentence with the engine speaking it, unpaused, and nothing raised yet. */
  ghost predicate Reading(w: World) {
    && w.c.playing && !w.c.paused && w.c.index < |w.c.sentences| && Synced(w.c)
    && |w.e.queue| == 1 && w.c.current == Some(w.e.queue[0].id) && w.e.queue[0].id < w.c.nextId
    && !w.e.paused && w.e.events == []
  }

  /** A world that is reading a sentence aloud is a valid one. */
  lemma ReadingValid(w: World)
    requires Reading(w)
    ensures Valid(w)
  {
  }

  /** The sentence being spoken ends and its `end` event is handled. */
  function Complete(w: World): World
    requires w.e.queue != [] && !w.e.paused
  {
    DeliverEvent(World(w.c, w.e.Finish()))
  }

  /** Once the spoken sentence has ended, handling its event is the `onend` of the current utterance on a silent engine. */
  lemma {:induction false} CompleteUnfold(w: World)
    requires Reading(w)
    ensures Complete(w) == OnEndAsWritten(World(w.c, w.e.(queue := [], events := [])), w.e.queue[0].id)
  {
    var w1 := World(w.c, w.e.Finish());
    assert w1.e.events == [Ended(w.e.queue[0].id)];
    assert w1.e.Deliver() == w.e.(queue := [], events := []);
  }

  /** One completion moves on to the next sentence, or resets after the last one. */
  lemma {:induction false} CompleteStep(w: World)
    requires Reading(w)
    ensures w.c.index + 1 < |w.c.sentences| ==>
              && Reading(Complete(w)) && Complete(w).c.index == w.c.index + 1
              && Complete(w).e.queue[0].text == w.c.sentences[w.c.index + 1]
    ensures w.c.index + 1 >= |w.c.sentences| ==>
              && Idle(Complete(w).c) && Complete(w).c.index == 0
              && Complete(w).e.queue == [] && Complete(w).e.events == []
  {
    var e2 := w.e.(queue := [], events := []);
    CompleteUnfold(w);
    var c := Advance(w.c);
    if c.index < |c.sentences| {
      var r := SpeakFrom(World(c, e2), c.index);
      assert Complete(w) == r;
      SpeakFromSpec(World(c, e2), c.index);
      assert r.e.events == [];
    }
  }

  /** `k` sentences completing one after another, as long as the engine is speaking. */
  function Completions(w: World, k: nat): World
    decreases k
  {
    if k == 0 || w.e.queue == [] || w.e.paused then w else Completions(Complete(w), k - 1)
  }

  /** Idle at the first sentence, the engine silent and nothing left to deliver. */
  ghost predicate Finished(w: World) {
    Idle(w.c) && w.c.index == 0 && w.e.queue == [] && w.e.events == []
  }

  /**
   * Left to play, the player speaks every remaining sentence and, after the last one has
   * ended, is idle at the first sentence with a silent engine.
   */
  lemma {:induction false} PlaysToEnd(w: World)
    requires Reading(w)
    ensures Finished(Completions(w, |w.c.sentences| - w.c.index))
    decreases |w.c.sentences| - w.c.index
  {
    var k := |w.c.sentences| - w.c.index;
    var w1 := Complete(w);
    var r := Completions(w1, k - 1);
    assert Completions(w, k) == r;
    assert Finished(r) by {
      CompleteStep(w);
      if w.c.index + 1 < |w.c.sentences| {
        assert |w1.c.sentences| - w1.c.index == k - 1;
        PlaysToEnd(w1);
      } else {
        assert r == w1;
      }
    }
  }

  /** From idle with a silent, unpaused engine, pressing play starts speaking the first sentence. */
  lemma {:induction false} PressPlayStarts(w: World)
    requires Valid(w) && Idle(w.c) && w.c.sentences != [] && !w.e.paused && w.e.events == []
    ensures Reading(TogglePlayPause(w)) && TogglePlayPause(w).c.index == 0
  {
    SpeakFromSpec(w, 0);
    TogglePlayPauseValid(w);
  }

  /** With `n` sentences, pressing play and letting `n` sentences end leaves the player idle at the first one. */
  lemma {:induction false} PlayWholeText(w: World)
    requires Valid(w) && Idle(w.c) && w.c.sentences != [] && !w.e.paused && w.e.events == []
    ensures Finished(Completions(TogglePlayPause(w), |w.c.sentences|))
  {
    var w1 := TogglePlayPause(w);
    assert Reading(w1) && w1.c.index == 0 by {
      PressPlayStarts(w);
    }
    assert w1.c.sentences == w.c.sentences;
    PlaysToEnd(w1);
  }

  // ---------------------------------------------------------------------------
  // A stale error event
  // ---------------------------------------------------------------------------

  /** Two sentences, a speed control at 1x, no sticky player, the engine silent. */
  function TwoSentences(): World
  {
    World(Ctrl(Settings(None, None, None, [], false), ["One.", "Two."], 0, false, false, None, 0,
               Some(1.0), true, None, true, false, Progress(0, None), []),
          Engine([], false, [], []))
  }

  /**
   * With the handlers as written: play, then change the speed. The first utterance is
   * cancelled and its `interrupted` error is still on its way when the second utterance is
   * spoken; handling it resets the player, which then shows idle while the engine speaks.
   */
  lemma StaleErrorAsWritten()
    ensures var w := OnSpeedChange(TogglePlayPause(TwoSentences()), 1.5);
            && Valid(w) && w.e.events == [Errored(0, Interrupted)]
            && Idle(DeliverEventAsWritten(w).c) && DeliverEventAsWritten(w).e.Speaking()
            && !Valid(DeliverEventAsWritten(w))
  {
    var w0 := TwoSentences();
    assert Valid(w0);
    var w1 := TogglePlayPause(w0);
    TogglePlayPauseValid(w0);
    assert w1.e.queue[0].id == 0 && w1.e.events == [];
    var w := OnSpeedChange(w1, 1.5);
    OnSpeedChangeValid(w1, 1.5);
    assert w.e.events == [Errored(0, Interrupted)];
    assert w.e.queue[0].id == 1;
  }

  /** With the corrected handlers the same event is recognised as stale and the player keeps playing. */
  lemma StaleErrorIgnored()
    ensures var w := OnSpeedChange(TogglePlayPause(TwoSentences()), 1.5);
            && DeliverEvent(w).c == w.c && DeliverEvent(w).c.playing && DeliverEvent(w).e.Speaking()
  {
    var w1 := TogglePlayPause(TwoSentences());
    assert w1.e.queue[0].id == 0 && w1.e.events == [];
    var w := OnSpeedChange(w1, 1.5);
    assert w.e.events == [Errored(0, Interrupted)];
    assert w.c.current == Some(1);
  }

  /**
   * With the handlers as written: play, let the first sentence end, and change the speed
   * before its `end` event is handled. The speed change restarts the first sentence; the
   * late `end` event then moves the player on to the second sentence and cancels the
   * restarted one.
   */
  lemma StaleEndAsWritten()
    ensures var w1 := TogglePlayPause(TwoSentences());
            var w := OnSpeedChange(World(w1.c, w1.e.Finish()), 1.5);
            && w.c.playing && w.c.index == 0 && w.e.queue[0].id == 1 && w.e.events == [Ended(0)]
            && DeliverEventAsWritten(w).c.index == 1
            && DeliverEventAsWritten(w).e.events == [Errored(1, Interrupted)]
  {
    var w1 := TogglePlayPause(TwoSentences());
    assert w1.e.queue[0].id == 0 && w1.e.events == [] && !w1.e.paused;
    var w2 := World(w1.c, w1.e.Finish());
    assert w2.e.queue == [] && w2.e.events == [Ended(0)];
    var w := OnSpeedChange(w2, 1.5);
    assert w.e.events == [Ended(0)] && w.e.queue[0].id == 1;
    assert w.c.current == Some(1);
  }

  /** With the corrected handlers the late `end` event is recognised as stale and the restarted sentence goes on. */
  lemma StaleEndIgnored()
    ensures var w1 := TogglePlayPause(TwoSentences());
            var w := OnSpeedChange(World(w1.c, w1.e.Finish()), 1.5);
            && DeliverEvent(w).c == w.c && DeliverEvent(w).c.index == 0
            && DeliverEvent(w).e.queue == w.e.queue && DeliverEvent(w).e.Speaking()
  {
    var w1 := TogglePlayPause(TwoSentences());
    assert w1.e.queue[0].id == 0 && w1.e.events == [] && !w1.e.paused;
    var w := OnSpeedChange(World(w1.c, w1.e.Finish()), 1.5);
    assert w.e.events == [Ended(0)] && w.e.queue[0].id == 1;
    assert w.c.current == Some(1);
  }
}
