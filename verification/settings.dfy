/**
 * `sanitize_settings` of the admin screen (the same in both plugins): the settings form's
 * raw input becomes the stored option, an array with a fixed set of keys. Numbers are
 * clamped, the button position is whitelisted, the colour falls back to the brand colour,
 * the post types are sanitised one by one and the feature flags become booleans.
 */
module Settings {
  import opened Php

  /** The colour `sanitize_settings` stores when no valid colour was given. */
  const DefaultColor: string := "#d60017"

  /**
   * The stored option `sanitize_settings` returns: an array with exactly these eleven keys
   * (`enabled_post_types`, `voice_name`, `speech_rate`, `pitch`, `volume`, `button_color`,
   * `button_position`, `show_progress_bar`, `show_speed_control`, `sticky_player`,
   * `rest_api_enabled`), each holding a value of the type given here. Other input keys are
   * dropped.
   */
  datatype Stored = Stored(
    enabledPostTypes: seq<(Key, Value)>,
    voiceName: string,
    speechRate: real,
    pitch: real,
    volume: real,
    buttonColor: Value,
    buttonPosition: string,
    showProgressBar: bool,
    showSpeedControl: bool,
    stickyPlayer: bool,
    restApiEnabled: bool)
  {
    /** The option as `get_option` returns it: a PHP array under the eleven keys. */
    function AsArray(): map<string, Value> {
      map k | k in FieldNames :: Entry(k)
    }

    /** The value stored under key `k`. */
    function Entry(k: string): Value {
      match k
      case "enabled_post_types" => Arr(enabledPostTypes)
      case "voice_name" => Str(voiceName)
      case "speech_rate" => Float(speechRate)
      case "pitch" => Float(pitch)
      case "volume" => Float(volume)
      case "button_color" => buttonColor
      case "button_position" => Str(buttonPosition)
      case "show_progress_bar" => Bool(showProgressBar)
      case "show_speed_control" => Bool(showSpeedControl)
      case "sticky_player" => Bool(stickyPlayer)
      case _ => Bool(restApiEnabled)
    }
  }

  /** The keys of the stored option. */
  const FieldNames: set<string> := {
    "enabled_post_types", "voice_name", "speech_rate", "pitch", "volume", "button_color",
    "button_position", "show_progress_bar", "show_speed_control", "sticky_player",
    "rest_api_enabled"}

  /** `array_map('sanitize_key', $a)`: every value sanitised, keys and order kept. */
  function MapSanitizeKey(host: Host, es: seq<(Key, Value)>): (r: seq<(Key, Value)>)
    ensures |r| == |es|
    ensures forall i :: 0 <= i < |es| ==> r[i].0 == es[i].0 && r[i].1 == Str(host.sanitizeKey(es[i].1))
  {
    if es == [] then [] else [(es[0].0, Str(host.sanitizeKey(es[0].1)))] + MapSanitizeKey(host, es[1..])
  }

  /** `enabled_post_types`: sanitised when the input is a non-empty array, empty otherwise. */
  function PostTypes(host: Host, input: map<string, Value>): (r: seq<(Key, Value)>)
    ensures r != [] ==> "enabled_post_types" in input && input["enabled_post_types"].Arr? && |r| == |input["enabled_post_types"].entries|
    ensures !Empty(input, "enabled_post_types") && input["enabled_post_types"].Arr? ==> r != []
    ensures !Empty(input, "enabled_post_types") && input["enabled_post_types"].Arr? ==>
              var es := input["enabled_post_types"].entries;
              |r| == |es| && forall i :: 0 <= i < |es| ==> r[i].0 == es[i].0 && r[i].1 == Str(host.sanitizeKey(es[i].1))
    ensures !(!Empty(input, "enabled_post_types") && input["enabled_post_types"].Arr?) ==> r == []
  {
    if !Empty(input, "enabled_post_types") && input["enabled_post_types"].Arr? then
      MapSanitizeKey(host, input["enabled_post_types"].entries)
    else []
  }

  /** `max($lo, min($hi, $x))`. */
  function Clamp(lo: real, hi: real, x: real): real {
    var m := if hi <= x then hi else x;
    if lo >= m then lo else m
  }

  /** A numeric setting: the input cast to float, or 1.0 when missing, then clamped to `[lo, hi]`. */
  function Number(host: Host, input: map<string, Value>, key: string, lo: real, hi: real): (r: real)
    requires lo <= 1.0 <= hi
    ensures lo <= r <= hi
    ensures !IsSet(input, key) ==> r == 1.0
    ensures IsSet(input, key) && lo <= ToFloat(host, input[key]) <= hi ==> r == ToFloat(host, input[key])
    ensures IsSet(input, key) && ToFloat(host, input[key]) > hi ==> r == hi
    ensures IsSet(input, key) && ToFloat(host, input[key]) < lo ==> r == lo
  {
    var x := if IsSet(input, key) then ToFloat(host, input[key]) else 1.0;
    Clamp(lo, hi, x)
  }

  /** `button_color`: the hex-sanitised input when that is truthy, the brand colour otherwise. */
  function Color(host: Host, input: map<string, Value>): (r: Value)
    ensures Truthy(r)
    ensures IsSet(input, "button_color") && Truthy(host.sanitizeHexColor(input["button_color"])) ==>
              r == host.sanitizeHexColor(input["button_color"])
    ensures !(IsSet(input, "button_color") && Truthy(host.sanitizeHexColor(input["button_color"]))) ==>
              r == Str(DefaultColor)
  {
    var color := if IsSet(input, "button_color") then host.sanitizeHexColor(input["button_color"]) else Str("");
    if Truthy(color) then color else Str(DefaultColor)
  }

  /** `button_position`: kept when it is exactly `'before'` or `'after'`, `'before'` otherwise. */
  function Position(input: map<string, Value>): string {
    var position := if IsSet(input, "button_position") then input["button_position"] else Str("before");
    if position == Str("before") || position == Str("after") then position.s else "before"
  }

  /** `sanitize_settings($input)`. */
  function SanitizeSettings(host: Host, input: map<string, Value>): (r: Stored)
    ensures 0.5 <= r.speechRate <= 2.0 && 0.0 <= r.pitch <= 2.0 && 0.0 <= r.volume <= 1.0
    ensures r.buttonPosition == "before" || r.buttonPosition == "after"
    ensures r.buttonPosition == "after" <==> Get(input, "button_position") == Str("after")
    ensures Truthy(r.buttonColor)
    ensures r.showProgressBar == !Empty(input, "show_progress_bar")
    ensures r.showSpeedControl == !Empty(input, "show_speed_control")
    ensures r.stickyPlayer == !Empty(input, "sticky_player")
    ensures r.restApiEnabled == !Empty(input, "rest_api_enabled")
    ensures r.speechRate == Number(host, input, "speech_rate", 0.5, 2.0)
    ensures r.pitch == Number(host, input, "pitch", 0.0, 2.0)
    ensures r.volume == Number(host, input, "volume", 0.0, 1.0)
    ensures r.buttonColor == Color(host, input)
    ensures r.enabledPostTypes == PostTypes(host, input)
    ensures r.voiceName == if IsSet(input, "voice_name") then host.sanitizeTextField(input["voice_name"]) else ""
  {
    Stored(
      PostTypes(host, input),
      if IsSet(input, "voice_name") then host.sanitizeTextField(input["voice_name"]) else "",
      Number(host, input, "speech_rate", 0.5, 2.0),
      Number(host, input, "pitch", 0.0, 2.0),
      Number(host, input, "volume", 0.0, 1.0),
      Color(host, input),
      Position(input),
      !Empty(input, "show_progress_bar"),
      !Empty(input, "show_speed_control"),
      !Empty(input, "sticky_player"),
      !Empty(input, "rest_api_enabled"))
  }

  /**
   * What the foreign sanitisers do to their own output: nothing. `sanitize_key` and
   * `sanitize_text_field` are idempotent, `sanitize_hex_color` returns a colour it accepts
   * unchanged, and it accepts the brand colour.
   */
  ghost predicate StableHost(host: Host) {
    && (forall v :: host.sanitizeKey(Str(host.sanitizeKey(v))) == host.sanitizeKey(v))
    && (forall v :: host.sanitizeTextField(Str(host.sanitizeTextField(v))) == host.sanitizeTextField(v))
    && (forall v :: Truthy(host.sanitizeHexColor(v)) ==> host.sanitizeHexColor(host.sanitizeHexColor(v)) == host.sanitizeHexColor(v))
    && host.sanitizeHexColor(Str(DefaultColor)) == Str(DefaultColor)
    && host.sanitizeTextField(Str("")) == ""
  }

  lemma {:induction false} MapSanitizeKeyIdempotent(host: Host, es: seq<(Key, Value)>)
    requires forall v :: host.sanitizeKey(Str(host.sanitizeKey(v))) == host.sanitizeKey(v)
    ensures MapSanitizeKey(host, MapSanitizeKey(host, es)) == MapSanitizeKey(host, es)
  {
    if es != [] {
      MapSanitizeKeyIdempotent(host, es[1..]);
    }
  }

  lemma StoredEntries(s: Stored)
    ensures s.AsArray().Keys == FieldNames
    ensures s.AsArray()["enabled_post_types"] == Arr(s.enabledPostTypes)
    ensures s.AsArray()["voice_name"] == Str(s.voiceName)
    ensures s.AsArray()["speech_rate"] == Float(s.speechRate)
    ensures s.AsArray()["pitch"] == Float(s.pitch)
    ensures s.AsArray()["volume"] == Float(s.volume)
    ensures s.AsArray()["button_color"] == s.buttonColor
    ensures s.AsArray()["button_position"] == Str(s.buttonPosition)
    ensures s.AsArray()["show_progress_bar"] == Bool(s.showProgressBar)
    ensures s.AsArray()["show_speed_control"] == Bool(s.showSpeedControl)
    ensures s.AsArray()["sticky_player"] == Bool(s.stickyPlayer)
    ensures s.AsArray()["rest_api_enabled"] == Bool(s.restApiEnabled)
  {
  }

  /** The result of saving the stored option of `input` through the form again. */
  function Resanitized(host: Host, input: map<string, Value>): Stored {
    SanitizeSettings(host, SanitizeSettings(host, input).AsArray())
  }

  /** Post types read back from any array that stores a sanitised list are that list again. */
  lemma PostTypesReread(host: Host, input: map<string, Value>, a: map<string, Value>)
    requires forall v :: host.sanitizeKey(Str(host.sanitizeKey(v))) == host.sanitizeKey(v)
    requires "enabled_post_types" in a && a["enabled_post_types"] == Arr(PostTypes(host, input))
    ensures PostTypes(host, a) == PostTypes(host, input)
  {
    if PostTypes(host, input) != [] {
      MapSanitizeKeyIdempotent(host, input["enabled_post_types"].entries);
    }
  }

  lemma PostTypesIdempotent(host: Host, input: map<string, Value>)
    requires StableHost(host)
    ensures Resanitized(host, input).enabledPostTypes == SanitizeSettings(host, input).enabledPostTypes
  {
    var s := SanitizeSettings(host, input);
    StoredEntries(s);
    PostTypesReread(host, input, s.AsArray());
  }

  lemma TextIdempotent(host: Host, input: map<string, Value>)
    requires StableHost(host)
    ensures Resanitized(host, input).buttonColor == SanitizeSettings(host, input).buttonColor
    ensures Resanitized(host, input).voiceName == SanitizeSettings(host, input).voiceName
  {
    StoredEntries(SanitizeSettings(host, input));
  }

  /** The clamps and the position whitelist are idempotent whatever the foreign sanitisers do. */
  lemma ClampsIdempotent(host: Host, input: map<string, Value>)
    ensures Resanitized(host, input).speechRate == SanitizeSettings(host, input).speechRate
    ensures Resanitized(host, input).pitch == SanitizeSettings(host, input).pitch
    ensures Resanitized(host, input).volume == SanitizeSettings(host, input).volume
    ensures Resanitized(host, input).buttonPosition == SanitizeSettings(host, input).buttonPosition
  {
    StoredEntries(SanitizeSettings(host, input));
  }

  lemma FlagsIdempotent(host: Host, input: map<string, Value>)
    ensures Resanitized(host, input).showProgressBar == SanitizeSettings(host, input).showProgressBar
    ensures Resanitized(host, input).showSpeedControl == SanitizeSettings(host, input).showSpeedControl
    ensures Resanitized(host, input).stickyPlayer == SanitizeSettings(host, input).stickyPlayer
    ensures Resanitized(host, input).restApiEnabled == SanitizeSettings(host, input).restApiEnabled
  {
    StoredEntries(SanitizeSettings(host, input));
  }

  /** Saving the stored option through the form again stores the same option. */
  lemma SanitizeIdempotent(host: Host, input: map<string, Value>)
    requires StableHost(host)
    ensures SanitizeSettings(host, SanitizeSettings(host, input).AsArray()) == SanitizeSettings(host, input)
  {
    PostTypesIdempotent(host, input);
    TextIdempotent(host, input);
    ClampsIdempotent(host, input);
    FlagsIdempotent(host, input);
    assert Resanitized(host, input) == SanitizeSettings(host, input);
  }
}
