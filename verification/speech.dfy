/**
 * The browser's speech synthesis engine (`window.speechSynthesis`), as the front-end player
 * sees it: a queue of utterances whose head is being spoken, a `paused` flag, and the
 * `end` and `error` events it fires. Events are delivered later, one at a time, in the order
 * they were raised; an utterance's handlers run only when its event is delivered.
 *
 * Following the Web Speech API: `cancel()` empties the queue, the utterance being spoken
 * gets an `interrupted` error and each one still waiting gets a `canceled` error; `cancel()`
 * leaves the `paused` flag as it was; `speak()` appends to the queue.
 */
module Speech {

  /** A voice the engine offers (`SpeechSynthesisVoice`), reduced to what the player compares. */
  datatype Voice = Voice(name: string, lang: string)

  /** A `SpeechSynthesisUtterance`; `id` stands for the object's identity. */
  datatype Utterance = Utterance(
    id: nat,
    text: string,
    rate: real,
    pitch: real,
    volume: real,
    voice: Option<Voice>)

  /** The `error` property of a `SpeechSynthesisErrorEvent`. */
  datatype ErrorCode = Canceled | Interrupted | Failed(reason: string)

  /** An event raised for the utterance with identity `id`. */
  datatype Event = Ended(id: nat) | Errored(id: nat, code: ErrorCode)

  import opened Wrappers

  /** The `error` events that cancelling raises for the utterances of queue `q`, in queue order. */
  function CancelEvents(q: seq<Utterance>): (r: seq<Event>)
    ensures |r| == |q|
    ensures forall i :: 0 <= i < |q| ==> r[i].id == q[i].id && r[i].Errored?
    ensures forall i :: 0 <= i < |q| ==> r[i].code == (if i == 0 then Interrupted else Canceled)
  {
    seq(|q|, i requires 0 <= i < |q| => Errored(q[i].id, if i == 0 then Interrupted else Canceled))
  }

  /** The engine's observable state. */
  datatype Engine = Engine(queue: seq<Utterance>, paused: bool, events: seq<Event>, voices: seq<Voice>)
  {
    /** `speechSynthesis.speaking`. */
    predicate Speaking() {
      queue != []
    }

    /** `speak(u)`: `u` joins the end of the queue. */
    function Speak(u: Utterance): Engine {
      this.(queue := queue + [u])
    }

    /** `cancel()`: the queue empties and every utterance in it gets its error event. */
    function Cancel(): Engine {
      this.(queue := [], events := events + CancelEvents(queue))
    }

    /** `pause()`. */
    function Pause(): Engine {
      this.(paused := true)
    }

    /** `resume()`. */
    function Resume(): Engine {
      this.(paused := false)
    }

    /** The utterance being spoken reaches its end. */
    function Finish(): Engine
      requires queue != [] && !paused
    {
      this.(queue := queue[1..], events := events + [Ended(queue[0].id)])
    }

    /** Synthesis of the utterance being spoken fails for `reason`. */
    function Fail(reason: string): Engine
      requires queue != []
    {
      this.(queue := queue[1..], events := events + [Errored(queue[0].id, Failed(reason))])
    }

    /** The oldest raised event is handed to its utterance's handler. */
    function Deliver(): Engine
      requires events != []
    {
      this.(events := events[1..])
    }
  }

  /** Cancelling always leaves an empty queue, and raises one event per utterance it removes. */
  lemma CancelEmpties(e: Engine)
    ensures !e.Cancel().Speaking() && e.Cancel().paused == e.paused
    ensures |e.Cancel().events| == |e.events| + |e.queue|
    ensures e.Cancel().events[..|e.events|] == e.events
  {
  }

  /** Cancel followed by speak leaves exactly the new utterance in the queue, whatever was there. */
  lemma CancelThenSpeak(e: Engine, u: Utterance)
    ensures e.Cancel().Speak(u).queue == [u]
    ensures e.Cancel().Speak(u).events == e.events + CancelEvents(e.queue)
  {
  }

  /**
   * The engine object. Its methods change its state exactly as the functions of `Engine`
   * describe.
   */
  class SpeechEngine {
    var queue: seq<Utterance>
    var paused: bool
    var events: seq<Event>
    const voices: seq<Voice>

    function Model(): Engine
      reads this
    {
      Engine(queue, paused, events, voices)
    }

    constructor (voices: seq<Voice>)
      ensures Model() == Engine([], false, [], voices)
    {
      this.voices := voices;
      queue := [];
      paused := false;
      events := [];
    }

    method Speak(u: Utterance)
      modifies this
      ensures Model() == old(Model()).Speak(u)
    {
      queue := queue + [u];
    }

    method Cancel()
      modifies this
      ensures Model() == old(Model()).Cancel()
    {
      events := events + CancelEvents(queue);
      queue := [];
    }

    method Pause()
      modifies this
      ensures Model() == old(Model()).Pause()
    {
      paused := true;
    }

    method Resume()
      modifies this
      ensures Model() == old(Model()).Resume()
    {
      paused := false;
    }

    method Finish()
      requires queue != [] && !paused
      modifies this
      ensures Model() == old(Model()).Finish()
    {
      events := events + [Ended(queue[0].id)];
      queue := queue[1..];
    }

    method Fail(reason: string)
      requires queue != []
      modifies this
      ensures Model() == old(Model()).Fail(reason)
    {
      events := events + [Errored(queue[0].id, Failed(reason))];
      queue := queue[1..];
    }

    /** Removes and returns the oldest raised event. */
    method Deliver() returns (ev: Event)
      requires events != []
      modifies this
      ensures ev == old(events)[0]
      ensures Model() == old(Model()).Deliver()
    {
      ev := events[0];
      events := events[1..];
    }
  }

  /**
   * `voices.find(v => v.name === name)`, as an index: the first voice named `name`,
   * or nothing when no voice has that name.
   */
  function FindVoice(voices: seq<Voice>, name: string): (r: Option<nat>)
    ensures r.Some? ==> r.value < |voices| && voices[r.value].name == name
    ensures r.Some? ==> forall j :: 0 <= j < r.value ==> voices[j].name != name
    ensures r.None? ==> forall j :: 0 <= j < |voices| ==> voices[j].name != name
  {
    if voices == [] then None
    else if voices[0].name == name then Some(0)
    else
      match FindVoice(voices[1..], name)
      case None => None
      case Some(k) => Some(k + 1)
  }
}
