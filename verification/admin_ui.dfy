/**
 * The settings screen's script (`wp-tts-admin.js`, and its twin `wpspeech-admin.js`, which
 * differs only in CSS class and element id prefixes): keyboard navigation between tabs,
 * `activateTab`, which rewrites every tab and panel in place, `populateVoices`, which
 * rebuilds the voice drop-down, and the preview button's `isPreviewPlaying` flag.
 */
module AdminUi {
  import opened Wrappers
  import opened Speech
  import Playback

  // ---------------------------------------------------------------------------
  // Keyboard navigation
  // ---------------------------------------------------------------------------

  /**
   * The tab the `keydown` handler moves to from tab `index` of `n` on key `key`, or
   * `None` when the key is not one it handles. Both operands of `%` are non-negative
   * here, where JavaScript's remainder and Dafny's agree.
   */
  function NextTab(key: string, index: nat, n: nat): (r: Option<nat>)
    requires index < n
    ensures r.Some? ==> r.value < n
    ensures (key == "ArrowRight" || key == "ArrowDown") ==> r == Some(if index == n - 1 then 0 else index + 1)
    ensures (key == "ArrowLeft" || key == "ArrowUp") ==> r == Some(if index == 0 then n - 1 else index - 1)
    ensures key == "Home" ==> r == Some(0)
    ensures key == "End" ==> r == Some(n - 1)
    ensures r.None? <==> key !in {"ArrowRight", "ArrowDown", "ArrowLeft", "ArrowUp", "Home", "End"}
  {
    ModSmall(index + 1, n);
    ModSmall(index - 1 + n, n);
    if key == "ArrowRight" || key == "ArrowDown" then Some((index + 1) % n)
    else if key == "ArrowLeft" || key == "ArrowUp" then Some((index - 1 + n) % n)
    else if key == "Home" then Some(0)
    else if key == "End" then Some(n - 1)
    else None
  }

  /** A step forward and a step back return to the tab where they started, and the other way round. */
  lemma ArrowsInverse(index: nat, n: nat)
    requires index < n
    ensures NextTab("ArrowLeft", NextTab("ArrowRight", index, n).value, n) == Some(index)
    ensures NextTab("ArrowRight", NextTab("ArrowLeft", index, n).value, n) == Some(index)
  {
  }

  /** The tab reached by pressing the forward arrow `k` times from tab `index`. */
  function Forward(index: nat, n: nat, k: nat): (r: nat)
    requires index < n
    ensures r < n
  {
    if k == 0 then index else NextTab("ArrowRight", Forward(index, n, k - 1), n).value
  }

  /** Pressing the forward arrow `k` times moves `k` tabs along, wrapping round. */
  lemma {:induction false} ForwardWraps(index: nat, n: nat, k: nat)
    requires index < n
    ensures Forward(index, n, k) == (index + k) % n
  {
    if k > 0 {
      ForwardWraps(index, n, k - 1);
      var p := Forward(index, n, k - 1);
      assert p == (index + k - 1) % n;
      ModStep(index + k - 1, n);
    }
  }

  /** The remainder of a number below `2n`. */
  lemma ModSmall(a: int, n: int)
    requires n > 0 && 0 <= a < 2 * n
    ensures a % n == (if a < n then a else a - n)
  {
    if a < n {
      Playback.DivUnique(a, n, 0);
    } else {
      Playback.DivUnique(a, n, 1);
    }
  }

  lemma ModStep(a: nat, n: nat)
    requires n > 0
    ensures (if a % n == n - 1 then 0 else a % n + 1) == (a + 1) % n
  {
    var q := a / n;
    var r := a % n;
    assert a == n * q + r;
    assert n * (q + 1) == n * q + n;
    assert n * (q + 2) == n * q + 2 * n;
    if r == n - 1 {
      Playback.DivUnique(a + 1, n, q + 1);
    } else {
      Playback.DivUnique(a + 1, n, q);
    }
  }

  /** As many forward presses as there are tabs come back to the starting tab. */
  lemma {:induction false} ForwardFullCircle(index: nat, n: nat)
    requires index < n
    ensures Forward(index, n, n) == index
  {
    ForwardWraps(index, n, n);
    ModSmall(index + n, n);
  }

  // ---------------------------------------------------------------------------
  // Tabs and panels
  // ---------------------------------------------------------------------------

  /**
   * A tab button: its `data-tab` key, whether it has the active class, its `aria-selected`
   * value and its `tabindex` attribute (`None` when absent).
   */
  datatype Tab = Tab(key: string, active: bool, selected: bool, tabIndex: Option<int>)

  /** A tab panel: its `data-panel` key and whether it has the active class. */
  datatype Panel = Panel(key: string, active: bool)

  /** What the first statement of `activateTab` does to every tab. */
  function Deselect(t: Tab): Tab {
    t.(active := false, selected := false, tabIndex := Some(-1))
  }

  /** What the second statement does to the chosen tab. */
  function Select(t: Tab): Tab {
    t.(active := true, selected := true, tabIndex := None)
  }

  /** The tabs after `activateTab` on tab `t`. */
  function Activated(tabs: seq<Tab>, t: nat): seq<Tab>
    requires t < |tabs|
  {
    seq(|tabs|, i requires 0 <= i < |tabs| => if i == t then Select(tabs[i]) else Deselect(tabs[i]))
  }

  /** The panels after `activateTab` on a tab whose key is `key`. */
  function Shown(panels: seq<Panel>, key: string): seq<Panel> {
    seq(|panels|, j requires 0 <= j < |panels| => panels[j].(active := panels[j].key == key))
  }

  /**
   * After `activateTab(t)` exactly tab `t` is active, selected and reachable with the Tab
   * key, every other tab is unselected with `tabindex="-1"`, no key changes, and exactly the
   * panels whose key is `t`'s key are active.
   */
  lemma ActivatedExactlyOne(tabs: seq<Tab>, panels: seq<Panel>, t: nat)
    requires t < |tabs|
    ensures |Activated(tabs, t)| == |tabs| && |Shown(panels, tabs[t].key)| == |panels|
    ensures forall i :: 0 <= i < |tabs| ==>
              Activated(tabs, t)[i].key == tabs[i].key
              && (Activated(tabs, t)[i].selected <==> i == t)
              && (Activated(tabs, t)[i].active <==> i == t)
              && Activated(tabs, t)[i].tabIndex == (if i == t then None else Some(-1))
    ensures forall j :: 0 <= j < |panels| ==>
              Shown(panels, tabs[t].key)[j].key == panels[j].key
              && (Shown(panels, tabs[t].key)[j].active <==> panels[j].key == tabs[t].key)
  {
  }

  /** The outcome of `activateTab` depends only on the keys, not on which tab was active before. */
  lemma {:induction false} ActivatedForgetsHistory(tabs: seq<Tab>, tabs': seq<Tab>, t: nat)
    requires t < |tabs| == |tabs'|
    requires forall i :: 0 <= i < |tabs| ==> tabs[i].key == tabs'[i].key
    ensures Activated(tabs, t) == Activated(tabs', t)
  {
    forall i | 0 <= i < |tabs|
      ensures Activated(tabs, t)[i] == Activated(tabs', t)[i]
    {
      assert tabs[i].key == tabs'[i].key;
    }
  }

  /** The tab list and the panels of the settings screen. */
  class TabList {
    const tabs: array<Tab>
    const panels: array<Panel>

    constructor (tabs: array<Tab>, panels: array<Panel>)
      ensures this.tabs == tabs && this.panels == panels
    {
      this.tabs := tabs;
      this.panels := panels;
    }

    /** `activateTab` on tab `t`. */
    method ActivateTab(t: nat)
      requires t < tabs.Length
      modifies tabs, panels
      ensures tabs[..] == Activated(old(tabs[..]), t)
      ensures panels[..] == Shown(old(panels[..]), old(tabs[t].key))
    {
      var key := tabs[t].key;
      var i := 0;
      while i < tabs.Length
        modifies tabs
        invariant 0 <= i <= tabs.Length
        invariant forall k :: 0 <= k < i ==> tabs[k] == Deselect(old(tabs[k]))
        invariant forall k :: i <= k < tabs.Length ==> tabs[k] == old(tabs[k])
      {
        tabs[i] := Deselect(tabs[i]);
        i := i + 1;
      }
      tabs[t] := Select(tabs[t]);
      assert tabs[..] == Activated(old(tabs[..]), t);
      var j := 0;
      while j < panels.Length
        modifies panels
        invariant 0 <= j <= panels.Length
        invariant forall k :: 0 <= k < j ==> panels[k] == old(panels[k]).(active := false)
        invariant forall k :: j <= k < panels.Length ==> panels[k] == old(panels[k])
      {
        panels[j] := panels[j].(active := false);
        j := j + 1;
      }
      j := 0;
      while j < panels.Length
        modifies panels
        invariant 0 <= j <= panels.Length
        invariant forall k :: 0 <= k < j ==> panels[k] == old(panels[k]).(active := old(panels[k]).key == key)
        invariant forall k :: j <= k < panels.Length ==> panels[k] == old(panels[k]).(active := false)
      {
        if panels[j].key == key {
          panels[j] := panels[j].(active := true);
        }
        j := j + 1;
      }
    }

    /** The `keydown` handler of tab `index`. */
    method KeyDown(index: nat, key: string)
      requires index < tabs.Length
      modifies tabs, panels
      ensures NextTab(key, index, tabs.Length).None? ==> tabs[..] == old(tabs[..]) && panels[..] == old(panels[..])
      ensures NextTab(key, index, tabs.Length).Some? ==>
                var t := NextTab(key, index, tabs.Length).value;
                tabs[..] == Activated(old(tabs[..]), t) && panels[..] == Shown(old(panels[..]), old(tabs[t].key))
    {
      var next := NextTab(key, index, tabs.Length);
      if next.Some? {
        ActivateTab(next.value);
      }
    }
  }

  // ---------------------------------------------------------------------------
  // The voice drop-down
  // ---------------------------------------------------------------------------

  /** An `<option>` of the voice drop-down: value, text and whether the script marked it selected. */
  datatype VoiceOption = VoiceOption(value: string, caption: string, selected: bool)

  /** The option `populateVoices` creates for `voice`. */
  function OptionFor(voice: Voice, saved: Option<string>): (o: VoiceOption)
    ensures o.value == voice.name
    ensures o.selected <==> saved == Some(voice.name)
  {
    VoiceOption(voice.name, voice.name + " (" + voice.lang + ")", saved.Some? && saved.value == voice.name)
  }

  /** One option per voice, in the engine's order. */
  function VoiceOptions(voices: seq<Voice>, saved: Option<string>): (r: seq<VoiceOption>)
    ensures |r| == |voices|
    ensures forall k :: 0 <= k < |voices| ==> r[k] == OptionFor(voices[k], saved)
  {
    seq(|voices|, k requires 0 <= k < |voices| => OptionFor(voices[k], saved))
  }

  /** The options `populateVoices` leaves, given those it found. */
  function Populated(options: seq<VoiceOption>, voices: seq<Voice>, saved: Option<string>): seq<VoiceOption> {
    if voices == [] then options else options[..if |options| == 0 then 0 else 1] + VoiceOptions(voices, saved)
  }

  /**
   * With the placeholder option in place, `populateVoices` keeps it, follows it with one
   * option per voice in voice order, and selects exactly the options of the saved voice.
   */
  lemma PopulatedShape(options: seq<VoiceOption>, voices: seq<Voice>, saved: Option<string>)
    requires |options| >= 1 && voices != []
    ensures |Populated(options, voices, saved)| == 1 + |voices|
    ensures Populated(options, voices, saved)[0] == options[0]
    ensures forall k :: 0 <= k < |voices| ==>
              Populated(options, voices, saved)[k + 1].value == voices[k].name
              && (Populated(options, voices, saved)[k + 1].selected <==> saved == Some(voices[k].name))
  {
    var tail := VoiceOptions(voices, saved);
    var r := Populated(options, voices, saved);
    assert r == options[..1] + tail;
    forall k | 0 <= k < |voices|
      ensures r[k + 1] == OptionFor(voices[k], saved)
    {
      assert r[k + 1] == tail[k];
    }
  }

  /**
   * `voiceschanged` may fire any number of times: populating again with the same voices
   * changes nothing, as long as the drop-down has its placeholder option.
   */
  lemma {:induction false} PopulatedIdempotent(options: seq<VoiceOption>, voices: seq<Voice>, saved: Option<string>)
    requires |options| >= 1
    ensures Populated(Populated(options, voices, saved), voices, saved) == Populated(options, voices, saved)
  {
    if voices != [] {
      var once := Populated(options, voices, saved);
      assert once[..1] == options[..1];
    }
  }

  /** Without the placeholder the first voice's option becomes the kept one, so populating twice repeats it. */
  lemma EmptySelectNotIdempotent()
    ensures var v := [Voice("A", "en")];
            Populated(Populated([], v, None), v, None) != Populated([], v, None)
  {
    var v := [Voice("A", "en")];
    assert |Populated([], v, None)| == 1;
    assert |Populated(Populated([], v, None), v, None)| == 2;
  }

  /** The `<select>` element of the voice setting. */
  class VoiceSelect {
    var options: seq<VoiceOption>

    constructor (options: seq<VoiceOption>)
      ensures this.options == options
    {
      this.options := options;
    }

    /**
     * `populateVoices` with the engine's `voices` and the saved voice's hidden input
     * (`None` when that element is missing): nothing when there are no voices; otherwise
     * every option after the first is removed and one option per voice appended.
     */
    method PopulateVoices(voices: seq<Voice>, saved: Option<string>)
      modifies this
      ensures options == Populated(old(options), voices, saved)
    {
      if |voices| == 0 {
        return;
      }
      while |options| > 1
        invariant |old(options)| == 0 ==> options == []
        invariant |old(options)| >= 1 ==> |options| >= 1 && options[0] == old(options)[0]
        decreases |options|
      {
        options := options[..1] + options[2..];
      }
      ghost var kept := options;
      assert kept == old(options)[..if |old(options)| == 0 then 0 else 1];
      var i := 0;
      while i < |voices|
        invariant 0 <= i <= |voices|
        invariant options == kept + VoiceOptions(voices[..i], saved)
      {
        assert VoiceOptions(voices[..i + 1], saved) == VoiceOptions(voices[..i], saved) + [OptionFor(voices[i], saved)];
        options := options + [OptionFor(voices[i], saved)];
        i := i + 1;
      }
      assert voices[..i] == voices;
    }
  }

  // ---------------------------------------------------------------------------
  // The preview button
  // ---------------------------------------------------------------------------

  /** What can happen to the preview: the two buttons and the preview utterance's events. */
  datatype PreviewAction =
    | PreviewClick(text: string)
    | StopClick
    | OnStart
    | OnEnd
    | OnError

  /**
   * `isPreviewPlaying` after `a`. A click with empty text does nothing; any other click
   * leaves the flag false, either by stopping the preview or because the new utterance
   * has not started yet.
   */
  function PreviewFlag(playing: bool, a: PreviewAction): bool {
    match a
    case PreviewClick(text) => if text == "" then playing else false
    case StopClick => false
    case OnStart => true
    case OnEnd => false
    case OnError => false
  }

  /** Only `onstart` sets the flag; stop, `onend` and `onerror` always clear it. */
  lemma PreviewFlagRules(playing: bool, a: PreviewAction)
    ensures PreviewFlag(playing, a) && !playing ==> a == OnStart
    ensures a == StopClick || a == OnEnd || a == OnError ==> !PreviewFlag(playing, a)
    ensures a == PreviewClick("") ==> PreviewFlag(playing, a) == playing
    ensures a.PreviewClick? && a.text != "" ==> !PreviewFlag(playing, a)
  {
  }

  /** The flag after the actions `acts`, in order, starting from `playing`. */
  function PreviewRun(playing: bool, acts: seq<PreviewAction>): bool {
    if acts == [] then playing else PreviewFlag(PreviewRun(playing, acts[..|acts| - 1]), acts[|acts| - 1])
  }

  /** Every action of `acts` from position `from` on is a click with empty text. */
  ghost predicate IdleFrom(acts: seq<PreviewAction>, from: nat) {
    forall j :: from <= j < |acts| ==> acts[j] == PreviewClick("")
  }

  /**
   * The flag is set after a run exactly when some `onstart` was followed only by clicks
   * with empty text, or it was set to begin with and only such clicks followed.
   */
  lemma {:induction false} PreviewRunSet(playing: bool, acts: seq<PreviewAction>)
    ensures PreviewRun(playing, acts) <==>
              (playing && IdleFrom(acts, 0))
              || (exists k :: 0 <= k < |acts| && acts[k] == OnStart && IdleFrom(acts, k + 1))
  {
    if acts != [] {
      var init := acts[..|acts| - 1];
      var last := acts[|acts| - 1];
      PreviewRunSet(playing, init);
      if last == PreviewClick("") {
        assert IdleFrom(acts, 0) <==> IdleFrom(init, 0);
        if exists k :: 0 <= k < |init| && init[k] == OnStart && IdleFrom(init, k + 1) {
          var k :| 0 <= k < |init| && init[k] == OnStart && IdleFrom(init, k + 1);
          assert acts[k] == OnStart && IdleFrom(acts, k + 1);
        }
        if exists k :: 0 <= k < |acts| && acts[k] == OnStart && IdleFrom(acts, k + 1) {
          var k :| 0 <= k < |acts| && acts[k] == OnStart && IdleFrom(acts, k + 1);
          assert k < |init| && init[k] == OnStart && IdleFrom(init, k + 1);
        }
      } else if last == OnStart {
        assert acts[|acts| - 1] == OnStart && IdleFrom(acts, |acts|);
      } else {
        assert !IdleFrom(acts, 0);
        assert forall m :: 0 <= m < |acts| ==> !IdleFrom(acts, m);
      }
    }
  }

  /** The preview button's state and the engine it speaks with. */
  class Preview {
    var isPreviewPlaying: bool
    var nextId: nat
    const synth: SpeechEngine

    constructor (synth: SpeechEngine)
      ensures !isPreviewPlaying && nextId == 0 && this.synth == synth
    {
      isPreviewPlaying := false;
      nextId := 0;
      this.synth := synth;
    }

    /**
     * The preview button's `click` handler with the text box's `text`, the sliders' rate,
     * pitch and volume, and the selected voice's name.
     */
    method Click(text: string, rate: real, pitch: real, volume: real, voiceName: string)
      modifies this, synth
      ensures isPreviewPlaying == PreviewFlag(old(isPreviewPlaying), PreviewClick(text))
      ensures text == "" ==> synth.Model() == old(synth.Model()) && nextId == old(nextId)
      ensures text != "" && old(isPreviewPlaying) ==> synth.Model() == old(synth.Model()).Cancel() && nextId == old(nextId)
      ensures text != "" && !old(isPreviewPlaying) ==>
                nextId == old(nextId) + 1
                && synth.Model() == old(synth.Model()).Cancel().Speak(
                     Utterance(old(nextId), text, rate, pitch, volume, Playback.ChooseVoice(synth.voices, voiceName)))
    {
      if text == "" {
        return;
      }
      if isPreviewPlaying {
        synth.Cancel();
        isPreviewPlaying := false;
        return;
      }
      var u := Utterance(nextId, text, rate, pitch, volume, Playback.ChooseVoice(synth.voices, voiceName));
      nextId := nextId + 1;
      synth.Cancel();
      synth.Speak(u);
    }

    /** The stop button's `click` handler. */
    method Stop()
      modifies this, synth
      ensures !isPreviewPlaying && nextId == old(nextId)
      ensures synth.Model() == old(synth.Model()).Cancel()
    {
      synth.Cancel();
      isPreviewPlaying := false;
    }

    /** `onstart` of the preview utterance. */
    method HandleStart()
      modifies this
      ensures isPreviewPlaying == PreviewFlag(old(isPreviewPlaying), OnStart) && nextId == old(nextId)
    {
      isPreviewPlaying := true;
    }

    /** `onend` of the preview utterance. */
    method HandleEnd()
      modifies this
      ensures isPreviewPlaying == PreviewFlag(old(isPreviewPlaying), OnEnd) && nextId == old(nextId)
    {
      isPreviewPlaying := false;
    }

    /** `onerror` of the preview utterance. */
    method HandleError()
      modifies this
      ensures isPreviewPlaying == PreviewFlag(old(isPreviewPlaying), OnError) && nextId == old(nextId)
    {
      isPreviewPlaying := false;
    }
  }
}
